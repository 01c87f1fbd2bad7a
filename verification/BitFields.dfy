/** The bits of a number. */
module BitFields {
  import opened Modular

  /** Bit i of a number. */
  predicate BitOf(x: nat, i: nat)
  {
    x / Exp2(i) % 2 == 1
  }

  lemma LowBit(x: nat)
    ensures BitOf(x, 0) <==> x % 2 == 1
  {
    assert Exp2(0) == 1;
  }

  lemma HalveThenDivide(x: nat, e: nat)
    requires e > 0
    ensures x / 2 / e == x / (2 * e)
  {
    var q, r := x / 2, x % 2;
    var s, t := q / e, q % e;
    DivModUnique(x, s, 2 * t + r, 2 * e);
  }

  /** Halving shifts the bits down. */
  lemma HalfBit(x: nat, i: nat)
    ensures BitOf(x, i + 1) <==> BitOf(x / 2, i)
  {
    HalveThenDivide(x, Exp2(i));
  }

  /** Doubling shifts them up. */
  lemma DoubleBit(x: nat, i: nat)
    ensures BitOf(2 * x, i) <==> i > 0 && BitOf(x, i - 1)
  {
    if i == 0 {
      LowBit(2 * x);
    } else {
      HalfBit(2 * x, i - 1);
    }
  }

  lemma ModHalf(x: nat, e: nat)
    requires e > 0
    ensures x % (2 * e) / 2 == x / 2 % e && x % (2 * e) % 2 == x % 2
  {
    var q, r := x / (2 * e), x % (2 * e);
    assert x == q * (2 * e) + r;
    DoubleFactor(q, e);
    assert x / 2 == q * e + r / 2;
    DivModUnique(x / 2, q, r / 2, e);
  }

  lemma DoubleFactor(q: int, e: int)
    ensures q * (2 * e) == 2 * (q * e)
  {
  }

  /** Reducing modulo 2^width keeps the low bits and clears the others. */
  lemma {:induction false} ModBit(x: nat, width: nat, i: nat)
    ensures BitOf(x % Exp2(width), i) <==> i < width && BitOf(x, i)
    decreases width
  {
    if width == 0 {
      assert x % Exp2(0) == 0;
      ZeroBit(i);
    } else {
      var r := x % Exp2(width);
      ModHalf(x, Exp2(width - 1));
      if i == 0 {
        LowBit(r);
        LowBit(x);
      } else {
        HalfBit(r, i - 1);
        HalfBit(x, i - 1);
        ModBit(x / 2, width - 1, i - 1);
      }
    }
  }

  lemma ZeroBit(i: nat)
    ensures !BitOf(0, i)
  {
    DivModUnique(0, 0, 0, Exp2(i));
  }

  /** A number below 2^width has no bit from width on. */
  lemma HighBitClear(x: nat, width: nat, i: nat)
    requires x < Exp2(width) && width <= i
    ensures !BitOf(x, i)
  {
    SmallMod(x, Exp2(width));
    ModBit(x, width, i);
  }

  /** The bits from k on. */
  function ShiftDown(x: nat, k: nat): nat
  {
    DivNonNegative(x, Exp2(k));
    x / Exp2(k)
  }

  lemma DivNonNegative(x: nat, d: nat)
    requires d > 0
    ensures x / d >= 0
  {
  }

  /** The low `width` bits. */
  function LowBits(x: nat, width: nat): nat
  {
    x % Exp2(width)
  }

  lemma ShiftDownStep(x: nat, k: nat)
    requires k > 0
    ensures ShiftDown(x, k) == ShiftDown(x / 2, k - 1)
  {
    HalveThenDivide(x, Exp2(k - 1));
  }

  /** Dividing by 2^k shifts the bits down by k. */
  lemma {:induction false} DivBit(x: nat, k: nat, i: nat)
    ensures BitOf(ShiftDown(x, k), i) <==> BitOf(x, k + i)
    decreases k
  {
    if k == 0 {
      assert Exp2(0) == 1;
      assert ShiftDown(x, 0) == x;
    } else {
      ShiftDownStep(x, k);
      DivBit(x / 2, k - 1, i);
      HalfBit(x, k - 1 + i);
    }
  }

  /** Multiplying by 2^k shifts them up by k. */
  lemma {:induction false} MulBit(x: nat, k: nat, i: nat)
    ensures BitOf(x * Exp2(k), i) <==> k <= i && BitOf(x, i - k)
    decreases k
  {
    if k == 0 {
      assert x * Exp2(0) == x;
    } else {
      DoubleFactor(x, Exp2(k - 1));
      DoubleBit(x * Exp2(k - 1), i);
      if i > 0 {
        MulBit(x, k - 1, i - 1);
      }
    }
  }

  /** The bit field at an offset. */
  lemma FieldBit(x: nat, offset: nat, width: nat, i: nat)
    ensures BitOf(LowBits(ShiftDown(x, offset), width), i) <==> i < width && BitOf(x, offset + i)
  {
    ModBit(ShiftDown(x, offset), width, i);
    DivBit(x, offset, i);
  }

  lemma AddDouble(x: nat, e: nat)
    ensures (x + 2 * e) / 2 == x / 2 + e && (x + 2 * e) % 2 == x % 2
  {
  }

  lemma OneBit(i: nat)
    ensures BitOf(1, i) <==> i == 0
  {
    if i == 0 {
      LowBit(1);
    } else {
      HalfBit(1, i - 1);
      ZeroBit(i - 1);
    }
  }

  /** The bits of a number, from those of its half. */
  lemma BitStep(x: nat, i: nat)
    ensures BitOf(x, i) <==> if i == 0 then x % 2 == 1 else BitOf(x / 2, i - 1)
  {
    if i == 0 {
      LowBit(x);
    } else {
      HalfBit(x, i - 1);
    }
  }

  /** Adding 2^n to a smaller number sets bit n. */
  lemma {:induction false} SetBit(x: nat, n: nat, i: nat)
    requires x < Exp2(n)
    ensures BitOf(x + Exp2(n), i) <==> i == n || BitOf(x, i)
    decreases n
  {
    if n == 0 {
      OneBit(i);
      ZeroBit(i);
    } else {
      var y := x + Exp2(n);
      AddDouble(x, Exp2(n - 1));
      BitStep(x, i);
      BitStep(y, i);
      if i > 0 {
        SetBit(x / 2, n - 1, i - 1);
      }
    }
  }

  /** Appending a bit to a number of n bits. */
  lemma NextBit(x: nat, on: bool, n: nat, i: nat)
    requires x < Exp2(n)
    ensures x + (if on then Exp2(n) else 0) < Exp2(n + 1)
    ensures BitOf(x + (if on then Exp2(n) else 0), i) <==> if i == n then on else BitOf(x, i)
  {
    SetBit(x, n, i);
    if i == n {
      HighBitClear(x, n, n);
    }
  }

  /** The number with the given bits. */
  function MaskOf(on: seq<bool>): nat
  {
    if on == [] then 0
    else
      var n := |on| - 1;
      MaskOf(on[..n]) + if on[n] then Exp2(n) else 0
  }

  lemma {:induction false} MaskBits(on: seq<bool>, i: nat)
    ensures MaskOf(on) < Exp2(|on|)
    ensures BitOf(MaskOf(on), i) <==> i < |on| && on[i]
  {
    if on == [] {
      ZeroBit(i);
    } else {
      var n := |on| - 1;
      MaskBits(on[..n], i);
      NextBit(MaskOf(on[..n]), on[n], n, i);
    }
  }

  /** Two numbers with the same bits are equal. */
  lemma {:induction false} SameBits(x: nat, y: nat)
    requires forall i: nat :: BitOf(x, i) <==> BitOf(y, i)
    ensures x == y
    decreases x + y
  {
    LowBit(x);
    LowBit(y);
    assert x % 2 == y % 2;
    if x != 0 || y != 0 {
      forall i: nat
        ensures BitOf(x / 2, i) <==> BitOf(y / 2, i)
      {
        HalfBit(x, i);
        HalfBit(y, i);
      }
      SameBits(x / 2, y / 2);
    }
  }
}
