/** Integer powers and arithmetic modulo a variable `p`.
    Two integers are congruent when their residues `% p` are equal. */
module Modular {

  function Pow(b: int, e: nat): int
  {
    if e == 0 then 1 else b * Pow(b, e - 1)
  }

  lemma {:induction false} PowAdd(b: int, e: nat, f: nat)
    ensures Pow(b, e + f) == Pow(b, e) * Pow(b, f)
  {
    if e != 0 {
      PowAdd(b, e - 1, f);
      assert b * (Pow(b, e - 1) * Pow(b, f)) == (b * Pow(b, e - 1)) * Pow(b, f);
    }
  }

  lemma {:induction false} PowMul(b: int, e: nat, f: nat)
    ensures e * f >= 0 && Pow(b, e * f) == Pow(Pow(b, e), f)
  {
    if f == 0 {
      assert e * f == 0;
    } else {
      PowMul(b, e, f - 1);
      assert e * f == e + e * (f - 1);
      PowAdd(b, e, e * (f - 1));
    }
  }

  lemma {:induction false} PowPositive(b: int, e: nat)
    requires b > 0
    ensures Pow(b, e) > 0
  {
    if e != 0 {
      PowPositive(b, e - 1);
    }
  }

  lemma {:induction false} PowMonotone(b: int, e: nat, f: nat)
    requires b > 0 && e <= f
    ensures Pow(b, e) <= Pow(b, f)
  {
    if e < f {
      PowMonotone(b, e, f - 1);
      PowPositive(b, f - 1);
      assert b * Pow(b, f - 1) >= 1 * Pow(b, f - 1);
    }
  }

  lemma {:induction false} PowOne(e: nat)
    ensures Pow(1, e) == 1
  {
    if e != 0 {
      PowOne(e - 1);
    }
  }

  function Exp2(k: nat): (r: nat)
    ensures r >= 1
  {
    if k == 0 then 1 else 2 * Exp2(k - 1)
  }

  lemma {:induction false} Exp2Add(j: nat, k: nat)
    ensures Exp2(j + k) == Exp2(j) * Exp2(k)
  {
    if j != 0 {
      Exp2Add(j - 1, k);
      assert 2 * (Exp2(j - 1) * Exp2(k)) == (2 * Exp2(j - 1)) * Exp2(k);
    }
  }

  lemma MulAtLeast(d: int, p: int)
    requires d >= 1 && p > 0
    ensures d * p >= p
  {
  }

  lemma MulLeftComm(a: int, b: int, c: int)
    ensures a * (b * c) == b * (a * c)
  {
  }

  lemma ScaleSum(b: int, e: int, r: int, s: int)
    ensures (b * e + r) * s == b * (e * s) + r * s
  {
  }

  lemma ShiftedFactor(a: int, k: int, p: int, b: int)
    ensures (a + k * p) * b == a * b + (k * b) * p
  {
  }

  lemma AddMultiples(k: int, l: int, p: int)
    ensures (k + l) * p == k * p + l * p && (k - l) * p == k * p - l * p
  {
  }

  /** Quotient and remainder are unique. */
  lemma DivModUnique(x: int, q: int, r: int, p: int)
    requires p > 0 && x == q * p + r && 0 <= r < p
    ensures x % p == r && x / p == q
  {
    var q', r' := x / p, x % p;
    assert x == q' * p + r';
    var d := q - q';
    AddMultiples(q, q', p);
    if d >= 1 {
      MulAtLeast(d, p);
    } else if d <= -1 {
      AddMultiples(0, d, p);
      MulAtLeast(-d, p);
    }
  }

  lemma DivExact(e: nat, n: nat)
    requires n > 0 && e % n == 0
    ensures e / n >= 0 && e == n * (e / n)
  {
  }

  lemma ModShift(a: int, k: int, p: int)
    requires p > 0
    ensures (a + k * p) % p == a % p
  {
    AddMultiples(a / p, k, p);
    DivModUnique(a + k * p, a / p + k, a % p, p);
  }

  /** Congruent integers differ by a multiple of the modulus. */
  lemma CongWitness(a: int, b: int, p: int) returns (k: int)
    requires p > 0 && a % p == b % p
    ensures a == b + k * p
  {
    k := a / p - b / p;
    AddMultiples(a / p, b / p, p);
  }

  lemma ModIdem(a: int, p: int)
    requires p > 0
    ensures (a % p) % p == a % p
  {
    DivModUnique(a % p, 0, a % p, p);
  }

  lemma SmallMod(a: int, p: int)
    requires 0 <= a < p
    ensures a % p == a
  {
    DivModUnique(a, 0, a, p);
  }

  lemma AddCongLeft(a: int, a': int, b: int, p: int)
    requires p > 0 && a % p == a' % p
    ensures (a + b) % p == (a' + b) % p && (b - a) % p == (b - a') % p
  {
    var k := CongWitness(a, a', p);
    ModShift(a' + b, k, p);
    ModShift(b - a, k, p);
  }

  lemma AddCong(a: int, a': int, b: int, b': int, p: int)
    requires p > 0 && a % p == a' % p && b % p == b' % p
    ensures (a + b) % p == (a' + b') % p && (a - b) % p == (a' - b') % p
  {
    AddCongLeft(a, a', b, p);
    AddCongLeft(a, a', -b, p);
    AddCongLeft(b, b', a', p);
  }

  lemma MulCongLeft(a: int, a': int, b: int, p: int)
    requires p > 0 && a % p == a' % p
    ensures (a * b) % p == (a' * b) % p
  {
    var k := CongWitness(a, a', p);
    ShiftedFactor(a', k, p, b);
    ModShift(a' * b, k * b, p);
  }

  lemma MulCong(a: int, a': int, b: int, b': int, p: int)
    requires p > 0 && a % p == a' % p && b % p == b' % p
    ensures (a * b) % p == (a' * b') % p
  {
    MulCongLeft(a, a', b, p);
    MulCongLeft(b, b', a', p);
    assert a' * b == b * a' && a' * b' == b' * a';
  }

  lemma {:induction false} PowCong(a: int, b: int, e: nat, p: int)
    requires p > 0 && a % p == b % p
    ensures Pow(a, e) % p == Pow(b, e) % p
  {
    if e != 0 {
      PowCong(a, b, e - 1, p);
      MulCong(a, b, Pow(a, e - 1), Pow(b, e - 1), p);
    }
  }

  /** `p` is the order of a prime field: every non-zero residue has an inverse. */
  ghost predicate IsField(p: nat)
  {
    p >= 2 && forall a {:trigger Invertible(a, p)} :: 0 < a < p ==> Invertible(a, p)
  }

  ghost predicate Invertible(a: int, p: nat)
    requires p > 0
  {
    exists b :: IsInverse(a, b, p)
  }

  predicate IsInverse(a: int, b: int, p: nat)
    requires p > 0
  {
    0 <= b < p && (a * b) % p == 1 % p
  }

  /** A field has no zero divisors. */
  lemma NoZeroDivisors(a: int, b: int, p: nat)
    requires IsField(p) && (a * b) % p == 0 && a % p != 0
    ensures b % p == 0
  {
    var r := a % p;
    assert Invertible(r, p);
    var c :| IsInverse(r, c, p);
    ModIdem(a, p);
    MulCong(r, a, c, c, p);
    assert (a * c) % p == 1 % p;
    SmallMod(0, p);
    MulCong(a * b, 0, c, c, p);
    assert (a * b) * c == (a * c) * b;
    MulCong(a * c, 1, b, b, p);
  }
}
