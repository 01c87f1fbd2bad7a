/** Bit decomposition of field elements, and selection by field arithmetic. */
module FieldBits {
  import opened Modular
  import opened Bytes

  /** The BN254 scalar field. */
  const BN254: nat := 21888242871839275222246405745257275088548364400416034343698204186575808495617

  function Shr(x: nat, i: nat): nat
  {
    if i == 0 then x else Shr(x, i - 1) / 2
  }

  function Shl(x: nat, i: nat): nat
  {
    if i == 0 then x else 2 * Shl(x, i - 1)
  }

  function BitAt(x: nat, i: nat): (b: nat)
    ensures b <= 1
  {
    Shr(x, i) % 2
  }

  /** The low `count` bits, least significant first. */
  function Bits(x: nat, count: nat): (r: seq<nat>)
    ensures |r| == count && forall i :: 0 <= i < count ==> r[i] == BitAt(x, i)
  {
    seq(count, i requires 0 <= i < count => BitAt(x, i))
  }

  /** The checked decomposition: there is none when the element does not fit. */
  function ToBits(x: nat, count: nat): Option<seq<nat>>
  {
    if 1 <= count <= 254 && x < Exp2(count) then Some(Bits(x, count)) else None
  }

  function FromBits(bits: seq<nat>): nat
  {
    if bits == [] then 0 else bits[0] + 2 * FromBits(bits[1..])
  }

  /** Repeated halving is division by the power of two. */
  lemma {:induction false} ShrIsDiv(x: nat, i: nat)
    ensures Shr(x, i) == x / Exp2(i)
  {
    if i > 0 {
      ShrIsDiv(x, i - 1);
      DivTwice(x, Exp2(i - 1));
    } else {
      assert Exp2(0) == 1;
    }
  }

  lemma {:induction false} ShlIsTimes(x: nat, i: nat)
    ensures Shl(x, i) == x * Exp2(i)
  {
    if i > 0 {
      ShlIsTimes(x, i - 1);
      TwiceProduct(x, Exp2(i - 1));
    } else {
      assert Exp2(0) == 1;
    }
  }

  lemma TwiceProduct(x: int, e: int)
    ensures 2 * (x * e) == x * (2 * e)
  {
  }

  lemma ShrAll(x: nat, i: nat)
    requires x < Exp2(i)
    ensures Shr(x, i) == 0
  {
    ShrIsDiv(x, i);
    DivModUnique(x, 0, x, Exp2(i));
  }

  lemma DivTwice(x: nat, e: nat)
    requires e > 0
    ensures x / (2 * e) == (x / e) / 2
  {
    var q, low := x / e, x % e;
    var h, b := q / 2, q % 2;
    HalvesAlgebra(e, low, h, b);
    BitTimes(b, e, low);
    assert x == q * e + low && q == 2 * h + b;
    DivModUnique(x, h, b * e + low, 2 * e);
  }

  lemma HalvesAlgebra(e: int, low: int, h: int, b: int)
    ensures (2 * h + b) * e + low == h * (2 * e) + (b * e + low)
  {
  }

  lemma BitTimes(b: nat, e: nat, low: nat)
    requires b < 2 && low < e
    ensures 0 <= b * e + low < 2 * e
  {
    if b == 0 {
      assert b * e == 0;
    } else {
      assert b * e == e;
    }
  }

  lemma {:induction false} HalfShr(x: nat, i: nat)
    ensures Shr(x / 2, i) == Shr(x, i + 1)
  {
    if i > 0 {
      HalfShr(x, i - 1);
    }
  }

  /** Composing the low bits gives the remainder modulo the power of two. */
  lemma {:induction false} ComposeLow(x: nat, count: nat)
    ensures FromBits(Bits(x, count)) == x % Exp2(count)
  {
    if count == 0 {
      assert Exp2(0) == 1;
    } else {
      var bits := Bits(x, count);
      assert bits[0] == x % 2;
      forall i | 0 <= i < count - 1
        ensures bits[1..][i] == Bits(x / 2, count - 1)[i]
      {
        HalfShr(x, i);
      }
      assert bits[1..] == Bits(x / 2, count - 1);
      ComposeLow(x / 2, count - 1);
      ModHalf(x, Exp2(count - 1));
    }
  }

  lemma ModHalf(x: nat, e: nat)
    requires e > 0
    ensures x % 2 + 2 * ((x / 2) % e) == x % (2 * e)
  {
    var q, r, b := (x / 2) / e, (x / 2) % e, x % 2;
    assert x / 2 == q * e + r;
    TwiceProduct(q, e);
    DivModUnique(x, q, 2 * r + b, 2 * e);
  }

  // ----- Selection -----

  /** The field expression a0 + cond * (a1 - a0). */
  function Mux(r: nat, cond: nat, a0: nat, a1: nat): nat
    requires r > 0
  {
    (a0 + (((a1 - a0) % r) * cond) % r) % r
  }

  /** For a boolean condition and canonical residues the expression is the selected value. */
  lemma MuxSelects(r: nat, cond: nat, a0: nat, a1: nat)
    requires a0 < r && a1 < r && cond <= 1
    ensures Mux(r, cond, a0, a1) == if cond == 1 then a1 else a0
  {
    var d := (a1 - a0) % r;
    if cond == 0 {
      assert d * cond == 0;
      SmallMod(a0, r);
    } else {
      assert d * cond == d;
      ModIdem(a1 - a0, r);
      AddCong(a0, a0, d, a1 - a0, r);
      SmallMod(a1, r);
    }
  }

  /** Four-way selection by two nested selections. */
  function Mux2(r: nat, s0: nat, s1: nat, a0: nat, a1: nat, a2: nat, a3: nat): nat
    requires r > 0
  {
    Mux(r, s1, Mux(r, s0, a0, a1), Mux(r, s0, a2, a3))
  }

  lemma Mux2Selects(r: nat, s0: nat, s1: nat, a: seq<nat>)
    requires |a| == 4 && s0 <= 1 && s1 <= 1 && forall i :: 0 <= i < 4 ==> a[i] < r
    ensures r > 0 && Mux2(r, s0, s1, a[0], a[1], a[2], a[3]) == a[s0 + 2 * s1]
  {
    MuxSelects(r, s0, a[0], a[1]);
    MuxSelects(r, s0, a[2], a[3]);
    MuxSelects(r, s1, Mux(r, s0, a[0], a[1]), Mux(r, s0, a[2], a[3]));
  }
}
