/** What the sixteen arithmetic opcodes compute, as the Ethereum Yellow Paper has it. */
module Opcodes {
  import opened Modular
  import opened Bytes
  import opened BitFields
  import opened Gadgets

  /** The sign of a word in two's complement. */
  predicate Negative(a: Word)
  {
    BitOf(a, 255)
  }

  /** The result word of an opcode whose operands are the top `a` and the word `b` below it. */
  ghost predicate Computes(opcode: byte, a: Word, b: Word, r: Word)
  {
    match opcode
    case 0x01 => r == a + b || r == a + b - TWO_256
    case 0x02 => Congruent(a * b, r)
    case 0x03 => r == a - b || r == a - b + TWO_256
    case 0x04 => if b == 0 then r == 0 else r * b <= a < r * b + b
    case 0x06 => if b == 0 then r == 0 else r < b && Divides(b, a - r)
    case 0x10 => r == if a < b then 1 else 0
    case 0x11 => r == if b < a then 1 else 0
    case 0x12 => r == if Negative(a) != Negative(b) then (if Negative(a) then 1 else 0) else if a < b then 1 else 0
    case 0x14 => r == if a == b then 1 else 0
    case 0x15 => r == if a == 0 then 1 else 0
    case 0x16 => forall i: nat :: BitOf(r, i) <==> BitOf(a, i) && BitOf(b, i)
    case 0x17 => forall i: nat :: BitOf(r, i) <==> BitOf(a, i) || BitOf(b, i)
    case 0x18 => forall i: nat :: BitOf(r, i) <==> BitOf(a, i) != BitOf(b, i)
    case 0x19 => forall i: nat :: BitOf(r, i) <==> i < 256 && !BitOf(a, i)
    case 0x1b => forall i: nat :: BitOf(r, i) <==> a <= i < 256 && BitOf(b, i - a)
    case 0x1c => forall i: nat :: BitOf(r, i) <==> BitOf(b, i + a)
    case _ => false
  }

  /** Equal modulo 2^256. */
  ghost predicate Congruent(x: int, r: Word)
  {
    exists k: int :: x == k * TWO_256 + r
  }

  ghost predicate Divides(d: int, x: int)
  {
    exists k: int :: x == k * d
  }

  // ----- Bits -----

  lemma {:induction false} BitOpBit(f: (bool, bool) -> bool, a: nat, b: nat, width: nat, i: nat)
    ensures BitOf(BitOp(f, a, b, width), i) <==> i < width && f(BitOf(a, i), BitOf(b, i))
    decreases width
  {
    var r := BitOp(f, a, b, width);
    if width == 0 {
      ZeroBit(i);
    } else if i == 0 {
      LowBit(r);
      LowBit(a);
      LowBit(b);
    } else {
      HalfBit(r, i - 1);
      HalfBit(a, i - 1);
      HalfBit(b, i - 1);
      assert r / 2 == BitOp(f, a / 2, b / 2, width - 1);
      BitOpBit(f, a / 2, b / 2, width - 1, i - 1);
    }
  }

  lemma WordBitClear(a: Word, i: nat)
    requires i >= 256
    ensures !BitOf(a, i)
  {
    WordWidth();
    HighBitClear(a, 256, i);
  }

  lemma BitsBit(f: (bool, bool) -> bool, a: Word, b: Word, i: nat)
    requires !f(false, false)
    ensures BitOf(Bits(f, a, b), i) <==> f(BitOf(a, i), BitOf(b, i))
  {
    WordWidth();
    BitOpBit(f, a, b, 256, i);
    if i >= 256 {
      WordBitClear(a, i);
      WordBitClear(b, i);
    }
  }

  lemma {:induction false} ComplementBit(a: nat, width: nat, i: nat)
    requires a < Exp2(width)
    ensures BitOf(Exp2(width) - 1 - a, i) <==> i < width && !BitOf(a, i)
    decreases width
  {
    if width == 0 {
      assert Exp2(0) - 1 - a == 0;
      ZeroBit(i);
    } else {
      var e := Exp2(width - 1);
      var r := 2 * e - 1 - a;
      assert r / 2 == e - 1 - a / 2 && r % 2 == 1 - a % 2;
      if i == 0 {
        LowBit(r);
        LowBit(a);
      } else {
        HalfBit(r, i - 1);
        HalfBit(a, i - 1);
        ComplementBit(a / 2, width - 1, i - 1);
      }
    }
  }

  lemma ComplementWord(a: Word, i: nat)
    ensures BitOf(Apply(Not, a, 0), i) <==> i < 256 && !BitOf(a, i)
  {
    WordWidth();
    ComplementBit(a, 256, i);
  }

  lemma ShiftLeftBit(a: nat, b: Word, i: nat)
    requires a < 256
    ensures BitOf(Wrap(b * Exp2(a)), i) <==> a <= i < 256 && BitOf(b, i - a)
  {
    WordWidth();
    ModBit(b * Exp2(a), 256, i);
    MulBit(b, a, i);
  }

  lemma ShiftRightBit(a: nat, b: Word, i: nat)
    requires a < 256
    ensures BitOf(Quotient(b, Exp2(a)), i) <==> BitOf(b, i + a)
  {
    assert Quotient(b, Exp2(a)) == ShiftDown(b, a);
    DivBit(b, a, i);
  }

  lemma SignBit(a: Word)
    ensures Negative(a) <==> a >= TWO_256 / 2
  {
    WordWidth();
    var half := Exp2(255);
    assert Exp2(256) == 2 * half;
    if a < half {
      HighBitClear(a, 255, 255);
    } else {
      SetBit(a - half, 255, 255);
    }
  }

  // ----- The opcodes -----

  lemma SumComputed(a: Word, b: Word)
    ensures Computes(0x01, a, b, Apply(Add, a, b)) && Computes(0x03, a, b, Apply(Sub, a, b))
  {
    var s := if a + b < TWO_256 then a + b else a + b - TWO_256;
    var d := if a >= b then a - b else a - b + TWO_256;
    DivModUnique(a + b, if a + b < TWO_256 then 0 else 1, s, TWO_256);
    DivModUnique(a - b, if a >= b then 0 else -1, d, TWO_256);
  }

  lemma ProductComputed(a: Word, b: Word)
    ensures Computes(0x02, a, b, Apply(Mul, a, b))
  {
    var x := a * b;
    assert x == (x / TWO_256) * TWO_256 + x % TWO_256;
  }

  lemma QuotientComputed(a: Word, b: Word)
    ensures Computes(0x04, a, b, Apply(Div, a, b)) && Computes(0x06, a, b, Apply(Rem, a, b))
  {
    if b != 0 {
      var q, r := a / b, a % b;
      assert a == q * b + r;
      assert a - r == q * b;
    }
  }

  lemma OrderComputed(a: Word, b: Word)
    ensures Computes(0x10, a, b, Apply(Lt, a, b)) && Computes(0x11, a, b, Apply(Gt, a, b))
    ensures Computes(0x12, a, b, Apply(Slt, a, b)) && Computes(0x14, a, b, Apply(Eq, a, b))
    ensures Computes(0x15, a, b, Apply(IsZero, a, b))
  {
    SignBit(a);
    SignBit(b);
  }

  lemma BitwiseComputed(a: Word, b: Word)
    ensures Computes(0x16, a, b, Apply(And, a, b)) && Computes(0x17, a, b, Apply(Or, a, b))
    ensures Computes(0x18, a, b, Apply(Xor, a, b)) && Computes(0x19, a, b, Apply(Not, a, b))
  {
    forall i: nat
      ensures BitOf(Apply(And, a, b), i) <==> BitOf(a, i) && BitOf(b, i)
      ensures BitOf(Apply(Or, a, b), i) <==> BitOf(a, i) || BitOf(b, i)
      ensures BitOf(Apply(Xor, a, b), i) <==> BitOf(a, i) != BitOf(b, i)
      ensures BitOf(Apply(Not, a, b), i) <==> i < 256 && !BitOf(a, i)
    {
      BitsBit((x, y) => x && y, a, b, i);
      BitsBit((x, y) => x || y, a, b, i);
      BitsBit((x, y) => x != y, a, b, i);
      ComplementWord(a, i);
    }
  }

  lemma ShiftComputed(a: Word, b: Word)
    ensures Computes(0x1b, a, b, Apply(Shl, a, b)) && Computes(0x1c, a, b, Apply(Shr, a, b))
  {
    forall i: nat
      ensures BitOf(Apply(Shl, a, b), i) <==> a <= i < 256 && BitOf(b, i - a)
      ensures BitOf(Apply(Shr, a, b), i) <==> BitOf(b, i + a)
    {
      if a < 256 {
        ShiftLeftBit(a, b, i);
        ShiftRightBit(a, b, i);
      } else {
        ZeroBit(i);
        WordBitClear(b, i + a);
      }
    }
  }

  /** Exactly the sixteen modelled opcodes have an operation, and it computes what the opcode stands for. */
  lemma OpcodeComputes(opcode: byte, a: Word, b: Word)
    ensures PureOf(opcode).Some? <==>
              opcode in {0x01, 0x02, 0x03, 0x04, 0x06, 0x10, 0x11, 0x12, 0x14, 0x15, 0x16, 0x17, 0x18, 0x19, 0x1b, 0x1c}
    ensures PureOf(opcode).Some? ==> Computes(opcode, a, b, Apply(PureOf(opcode).value, a, b))
  {
    SumComputed(a, b);
    ProductComputed(a, b);
    QuotientComputed(a, b);
    OrderComputed(a, b);
    BitwiseComputed(a, b);
    ShiftComputed(a, b);
  }

  /** How many words an opcode takes, and its price. */
  function Takes(opcode: byte): nat
  {
    if opcode == 0x15 || opcode == 0x19 then 1 else 2
  }

  function Price(opcode: byte): nat
  {
    if opcode == 0x02 || opcode == 0x04 || opcode == 0x06 then 5 else 3
  }

  lemma PriceAndWords<R>(others: Others<R>, opcode: byte)
    requires PureOf(opcode).Some?
    ensures StaticCost(others, opcode) == Price(opcode) && Arity(PureOf(opcode).value) == Takes(opcode)
  {
  }

  /** The stack after an opcode: the words it takes give way to the result. */
  ghost predicate Replaces(opcode: byte, before: seq<Word>, after: seq<Word>)
  {
    var n, k := |before|, Takes(opcode);
    && n >= k && |after| == n - k + 1 && after[..n - k] == before[..n - k]
    && Computes(opcode, before[n - 1], if k == 2 then before[n - 2] else 0, after[n - k])
  }

  lemma PureReplaces<R>(opcode: byte, m: Machine<R>)
    requires PureOf(opcode).Some? && m.halt.None?
    ensures var next := RunPure(PureOf(opcode).value, m);
            if |m.stack| < Takes(opcode) then next == m.(halt := Some(StackUnderflow))
            else next == m.(stack := next.stack) && Replaces(opcode, m.stack, next.stack)
  {
    var n := |m.stack|;
    if n >= Takes(opcode) {
      OpcodeComputes(opcode, m.stack[n - 1], if Takes(opcode) == 2 then m.stack[n - 2] else 0);
    }
  }

  /** The byte an instruction is read from; past its end code reads as STOP. */
  ghost predicate Reads(code: Bytes, pc: nat, opcode: byte)
  {
    (pc < |code| ==> opcode == code[pc]) && (pc >= |code| ==> opcode == 0x00)
  }

  lemma FetchReads(code: Bytes, pc: nat, opcode: byte)
    ensures Reads(code, pc, opcode) <==> OpcodeAt(code, pc) == opcode
  {
  }

  /** A reference step at such an opcode: it advances by one, pays the opcode's price or runs out of gas, needs its
      words on the stack, and replaces them by the result; nothing else changes. */
  lemma ReferenceStepComputes<R>(others: Others<R>, code: Bytes, m: Machine<R>, opcode: byte)
    requires m.halt.None? && Reads(code, m.pc, opcode) && PureOf(opcode).Some?
    ensures var next := RefStep(others, code, m);
            if m.gas < Price(opcode) then next == m.(pc := m.pc + 1, gas := 0, halt := Some(OutOfGas))
            else if |m.stack| < Takes(opcode)
            then next == m.(pc := m.pc + 1, gas := m.gas - Price(opcode), halt := Some(StackUnderflow))
            else next == m.(pc := m.pc + 1, gas := m.gas - Price(opcode), stack := next.stack)
                 && Replaces(opcode, m.stack, next.stack)
  {
    FetchReads(code, m.pc, opcode);
    PriceAndWords(others, opcode);
    if m.gas >= Price(opcode) {
      PureReplaces(opcode, m.(pc := m.pc + 1, gas := m.gas - Price(opcode)));
    }
  }

  /** At any other opcode it advances, pays and hands over to what that opcode does. */
  lemma ReferenceStepElsewhere<R>(others: Others<R>, code: Bytes, m: Machine<R>, opcode: byte)
    requires m.halt.None? && Reads(code, m.pc, opcode)
    requires opcode !in {0x01, 0x02, 0x03, 0x04, 0x06, 0x10, 0x11, 0x12, 0x14, 0x15, 0x16, 0x17, 0x18, 0x19, 0x1b, 0x1c}
    ensures RefStep(others, code, m)
         == if m.gas < others.cost(opcode) then m.(pc := m.pc + 1, gas := 0, halt := Some(OutOfGas))
            else others.run(opcode, m.(pc := m.pc + 1, gas := m.gas - others.cost(opcode)))
  {
    FetchReads(code, m.pc, opcode);
  }
}
