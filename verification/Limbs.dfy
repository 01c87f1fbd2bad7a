/** 256-bit addition and subtraction on four 64-bit limbs held in field elements. */
module Limbs {
  import opened Modular
  import opened Bytes
  import opened FieldBits

  const LIMBS: nat := 4
  const LIMB_BITS: nat := 64

  type Limb = x: int | 0 <= x < TWO_64

  /** The number four limbs stand for, least significant limb first. */
  function Value(limbs: seq<int>): int
  {
    if limbs == [] then 0 else limbs[0] + TWO_64 * Value(limbs[1..])
  }

  function AddMod(a: nat, b: nat): nat
  {
    (a + b) % BN254
  }

  function SubMod(a: nat, b: nat): nat
  {
    (a - b) % BN254
  }

  /** Split an element of at most 65 bits into its low 64 bits and its top bit; there is no decomposition of a larger
      one. */
  function SplitLimb(sum: nat): Option<(nat, nat)>
  {
    var bits := ToBits(sum, LIMB_BITS + 1);
    if bits.None? then None else Some((FromBits(bits.value[..LIMB_BITS]), bits.value[LIMB_BITS]))
  }

  lemma SplitLimbExact(sum: nat)
    requires sum < 2 * TWO_64
    ensures SplitLimb(sum) == Some((sum % TWO_64, sum / TWO_64)) && sum / TWO_64 <= 1
  {
    LimbWidth();
    ComposeLow(sum, LIMB_BITS);
    assert Bits(sum, LIMB_BITS + 1)[..LIMB_BITS] == Bits(sum, LIMB_BITS);
    ShrIsDiv(sum, LIMB_BITS);
  }

  lemma LimbWidth()
    ensures Exp2(LIMB_BITS) == TWO_64 && Exp2(LIMB_BITS + 1) == 2 * TWO_64
  {
    assert Exp2(8) == 256;
    Exp2Add(8, 8);
    Exp2Add(16, 16);
    Exp2Add(32, 32);
  }

  // ----- One limb -----

  method AddLimbWithCarry(a: Limb, b: Limb, carryIn: nat) returns (r: Option<(nat, nat)>)
    requires carryIn <= 1
    ensures r.Some? && r.value.0 < TWO_64 && r.value.1 <= 1
    ensures r.value.0 + TWO_64 * r.value.1 == a + b + carryIn
  {
    var sum := AddMod(AddMod(a, b), carryIn);
    SmallMod(a + b, BN254);
    SmallMod(a + b + carryIn, BN254);
    SplitLimbExact(sum);
    r := SplitLimb(sum);
  }

  method SubLimbWithBorrow(a: Limb, b: Limb, borrowIn: nat) returns (r: Option<(nat, nat)>)
    requires borrowIn <= 1
    ensures r.Some? && r.value.0 < TWO_64 && r.value.1 <= 1
    ensures r.value.0 - TWO_64 * r.value.1 == a - b - borrowIn
  {
    var sum := SubMod(SubMod(AddMod(TWO_64, a), b), borrowIn);
    SmallMod(TWO_64 + a, BN254);
    SmallMod(TWO_64 + a - b, BN254);
    SmallMod(TWO_64 + a - b - borrowIn, BN254);
    SplitLimbExact(sum);
    var split := SplitLimb(sum);
    if split.None? {
      return None;
    }
    var borrow := SubMod(1, split.value.1);
    SmallMod(1 - split.value.1, BN254);
    r := Some((split.value.0, borrow));
  }

  // ----- Four limbs -----

  lemma {:induction false} ValueAppend(front: seq<int>, x: int)
    ensures Value(front + [x]) == Value(front) + Pow(TWO_64, |front|) * x
  {
    if front == [] {
      assert [x][1..] == [];
      assert Value([x]) == x + TWO_64 * Value([]);
    } else {
      assert (front + [x])[1..] == front[1..] + [x];
      ValueAppend(front[1..], x);
      var p := Pow(TWO_64, |front| - 1);
      AppendAlgebra(front[0], TWO_64, Value(front[1..]), p, x);
    }
  }

  lemma AppendAlgebra(h: int, t: int, v: int, p: int, x: int)
    ensures h + t * (v + p * x) == h + t * v + (t * p) * x
  {
    assert t * (v + p * x) == t * v + t * (p * x);
    assert t * (p * x) == (t * p) * x;
  }

  /** Limb-wise, x plus y is the total plus a carry at the top. */
  ghost predicate Sums(total: seq<int>, x: seq<int>, y: seq<int>, carry: int)
  {
    |total| == |x| == |y| && Value(total) + Pow(TWO_64, |total|) * carry == Value(x) + Value(y)
  }

  lemma CarryAlgebra(p: int, t: int, va: int, vb: int, vr: int, a: int, b: int, r: int, cin: int, cout: int)
    requires vr + p * cin == va + vb && r + t * cout == a + b + cin
    ensures (vr + p * r) + (t * p) * cout == (va + p * a) + (vb + p * b)
  {
    assert p * (r + t * cout) == p * (a + b + cin);
    assert p * (r + t * cout) == p * r + (t * p) * cout by {
      assert p * (t * cout) == (t * p) * cout;
    }
    assert p * (a + b + cin) == p * a + p * b + p * cin;
  }

  /** One more limb moves the carry up. */
  lemma SumsAppend(total: seq<int>, x: seq<int>, y: seq<int>, cin: int, r: int, a: int, b: int, cout: int)
    requires Sums(total, x, y, cin) && r + TWO_64 * cout == a + b + cin
    ensures Sums(total + [r], x + [a], y + [b], cout)
  {
    ValueAppend(total, r);
    ValueAppend(x, a);
    ValueAppend(y, b);
    CarryAlgebra(Pow(TWO_64, |total|), TWO_64, Value(x), Value(y), Value(total), a, b, r, cin, cout);
  }

  ghost predicate IsUint256(x: seq<int>)
  {
    |x| == LIMBS && forall i :: 0 <= i < LIMBS ==> 0 <= x[i] < TWO_64
  }

  lemma FourLimbs()
    ensures Pow(TWO_64, LIMBS) == TWO_256
  {
    assert Pow(TWO_64, 2) == 0x1_0000_0000_0000_0000_0000_0000_0000_0000;
    PowAdd(TWO_64, 2, 2);
  }

  lemma Prefix(x: seq<int>, i: nat)
    requires i < |x|
    ensures x[..i + 1] == x[..i] + [x[i]]
  {
  }

  /** Exact 256-bit addition: no field wrap-around, no failing decomposition, carry zero or one. */
  method AddWithCarry(a: seq<int>, b: seq<int>) returns (val: seq<int>, carry: int)
    requires IsUint256(a) && IsUint256(b)
    ensures IsUint256(val) && 0 <= carry <= 1
    ensures Value(val) + TWO_256 * carry == Value(a) + Value(b)
    ensures carry == 1 <==> Value(a) + Value(b) >= TWO_256
  {
    var result := new int[LIMBS];
    carry := 0;
    var i := 0;
    while i < LIMBS
      invariant 0 <= i <= LIMBS && 0 <= carry <= 1
      invariant forall j :: 0 <= j < i ==> 0 <= result[j] < TWO_64
      invariant Sums(result[..i], a[..i], b[..i], carry)
    {
      var step := AddLimbWithCarry(a[i], b[i], carry);
      SumsAppend(result[..i], a[..i], b[..i], carry, step.value.0, a[i], b[i], step.value.1);
      ghost var before := result[..i];
      result[i] := step.value.0;
      Prefix(a, i);
      Prefix(b, i);
      assert result[..i + 1] == before + [step.value.0];
      carry := step.value.1;
      i := i + 1;
    }
    val := result[..];
    assert result[..i] == val && a[..i] == a && b[..i] == b;
    ValueBound(val);
    FourLimbs();
  }

  /** Exact 256-bit subtraction: the borrow is one exactly when the result wrapped. */
  method SubWithBorrow(a: seq<int>, b: seq<int>) returns (val: seq<int>, borrow: int)
    requires IsUint256(a) && IsUint256(b)
    ensures IsUint256(val) && 0 <= borrow <= 1
    ensures Value(val) - TWO_256 * borrow == Value(a) - Value(b)
    ensures borrow == 1 <==> Value(a) < Value(b)
  {
    var result := new int[LIMBS];
    borrow := 0;
    var i := 0;
    while i < LIMBS
      invariant 0 <= i <= LIMBS && 0 <= borrow <= 1
      invariant forall j :: 0 <= j < i ==> 0 <= result[j] < TWO_64
      invariant Sums(a[..i], result[..i], b[..i], borrow)
    {
      var step := SubLimbWithBorrow(a[i], b[i], borrow);
      SumsAppend(a[..i], result[..i], b[..i], borrow, a[i], step.value.0, b[i], step.value.1);
      ghost var before := result[..i];
      result[i] := step.value.0;
      Prefix(a, i);
      Prefix(b, i);
      assert result[..i + 1] == before + [step.value.0];
      borrow := step.value.1;
      i := i + 1;
    }
    val := result[..];
    assert result[..i] == val && a[..i] == a && b[..i] == b;
    ValueBound(val);
    FourLimbs();
  }

  /** Values of four limbs are the numbers below 2^256, so the wrapped result and the carry are determined. */
  lemma {:induction false} ValueBound(x: seq<int>)
    requires forall i :: 0 <= i < |x| ==> 0 <= x[i] < TWO_64
    ensures 0 <= Value(x) < Pow(TWO_64, |x|)
  {
    if x != [] {
      ValueBound(x[1..]);
      BoundAlgebra(x[0], TWO_64, Value(x[1..]), Pow(TWO_64, |x| - 1));
    }
  }

  lemma BoundAlgebra(h: int, t: int, v: int, p: int)
    requires 0 <= h < t && 0 <= v < p
    ensures 0 <= h + t * v < t * p
  {
    var k := p - 1 - v;
    assert t * p == t * v + t + t * k;
    assert t * k >= 0 && t * v >= 0;
  }
}
