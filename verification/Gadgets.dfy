/** The superinstruction interpreter: fourteen opcodes get a handler that may also consume the next opcode.
    Sixteen arithmetic opcodes are concrete; every other opcode is an arbitrary deterministic function. */
module Gadgets {
  import opened Modular
  import opened Bytes

  type Word = U256

  /** The arithmetic and bitwise operations the gadgets execute. */
  datatype PureFn =
    | Add | Mul | Sub | Div | Rem
    | Lt | Gt | Slt | Eq | IsZero
    | And | Or | Xor | Not | Shl | Shr

  datatype Halt = StackUnderflow | OutOfGas | Suspended(reason: int)

  /** One frame's interpreter; the last stack element is the top. `rest` is everything arithmetic never touches. */
  datatype Machine<R> = Machine(stack: seq<Word>, pc: nat, gas: nat, halt: Option<Halt>, memory: nat, rest: R)

  // ----- Word arithmetic -----

  function BitOp(f: (bool, bool) -> bool, a: nat, b: nat, width: nat): (r: nat)
    ensures r < Exp2(width)
  {
    if width == 0 then 0
    else (if f(a % 2 == 1, b % 2 == 1) then 1 else 0) + 2 * BitOp(f, a / 2, b / 2, width - 1)
  }

  function Bits(f: (bool, bool) -> bool, a: Word, b: Word): Word
  {
    WordWidth();
    BitOp(f, a, b, 256)
  }

  lemma {:induction false} ByteWidth(k: nat)
    ensures Exp2(8 * k) == Pow(256, k)
  {
    if k != 0 {
      ByteWidth(k - 1);
      Exp2Add(8, 8 * (k - 1));
      assert Exp2(8) == 256;
    }
  }

  lemma WordWidth()
    ensures Exp2(256) == TWO_256
  {
    ByteWidth(32);
    Widths();
  }

  function Quotient(a: Word, b: nat): Word
    requires b > 0
  {
    QuotientBound(a, b);
    a / b
  }

  lemma QuotientBound(a: nat, b: nat)
    requires b > 0
    ensures 0 <= a / b <= a
  {
    if a / b > a {
      MulAtLeast(b, a / b);
    }
  }

  function Remainder(a: Word, b: Word): Word
    requires b > 0
  {
    a % b
  }

  function Wrap(n: int): Word
  {
    n % TWO_256
  }

  function Signed(a: Word): int
  {
    if a < TWO_256 / 2 then a else a - TWO_256
  }

  function Flag(b: bool): Word
  {
    if b then 1 else 0
  }

  function Arity(fn: PureFn): nat
  {
    if fn.IsZero? || fn.Not? then 1 else 2
  }

  /** The value an operation leaves: `a` was the top of the stack, `b` the element below (unused for one operand). */
  function Apply(fn: PureFn, a: Word, b: Word): Word
  {
    match fn
    case Add => Wrap(a + b)
    case Mul => Wrap(a * b)
    case Sub => Wrap(a - b)
    case Div => if b == 0 then 0 else Quotient(a, b)
    case Rem => if b == 0 then 0 else Remainder(a, b)
    case Lt => Flag(a < b)
    case Gt => Flag(a > b)
    case Slt => Flag(Signed(a) < Signed(b))
    case Eq => Flag(a == b)
    case IsZero => Flag(a == 0)
    case And => Bits((x, y) => x && y, a, b)
    case Or => Bits((x, y) => x || y, a, b)
    case Xor => Bits((x, y) => x != y, a, b)
    case Not => TWO_256 - 1 - a
    case Shl => if a < 256 then Wrap(b * Exp2(a)) else 0
    case Shr => if a < 256 then Quotient(b, Exp2(a)) else 0
  }

  // ----- The reference interpreter -----

  function OpcodeAt(code: Bytes, pc: nat): byte
  {
    if pc < |code| then code[pc] else 0
  }

  /** The operation REVM's own table runs for an opcode, where it is one of the modelled ones. */
  function PureOf(opcode: byte): Option<PureFn>
  {
    match opcode
    case 0x01 => Some(Add)
    case 0x02 => Some(Mul)
    case 0x03 => Some(Sub)
    case 0x04 => Some(Div)
    case 0x06 => Some(Rem)
    case 0x10 => Some(Lt)
    case 0x11 => Some(Gt)
    case 0x12 => Some(Slt)
    case 0x14 => Some(Eq)
    case 0x15 => Some(IsZero)
    case 0x16 => Some(And)
    case 0x17 => Some(Or)
    case 0x18 => Some(Xor)
    case 0x19 => Some(Not)
    case 0x1b => Some(Shl)
    case 0x1c => Some(Shr)
    case _ => None
  }

  /** Yellow Paper costs: verylow 3, low 5. */
  function PureGas(fn: PureFn): nat
  {
    if fn.Mul? || fn.Div? || fn.Rem? then 5 else 3
  }

  function RunPure<R>(fn: PureFn, m: Machine<R>): Machine<R>
  {
    var n := |m.stack|;
    if n < Arity(fn) then m.(halt := Some(StackUnderflow))
    else if Arity(fn) == 1 then m.(stack := m.stack[..n - 1] + [Apply(fn, m.stack[n - 1], 0)])
    else m.(stack := m.stack[..n - 2] + [Apply(fn, m.stack[n - 1], m.stack[n - 2])])
  }

  /** Charge static gas; running out empties the meter and halts. */
  function Charge<R>(m: Machine<R>, cost: nat): Machine<R>
  {
    if m.gas < cost then m.(gas := 0, halt := Some(OutOfGas)) else m.(gas := m.gas - cost)
  }

  /** What the unmodelled opcodes do and cost. */
  datatype Others<!R> = Others(cost: byte -> nat, run: (byte, Machine<R>) -> Machine<R>)

  function StaticCost<R>(others: Others<R>, opcode: byte): nat
  {
    match PureOf(opcode)
    case Some(fn) => PureGas(fn)
    case None => others.cost(opcode)
  }

  /** One step of the reference interpreter: fetch, advance, charge, execute. */
  function RefStep<R>(others: Others<R>, code: Bytes, m: Machine<R>): Machine<R>
  {
    if m.halt.Some? then m
    else
      var opcode := OpcodeAt(code, m.pc);
      var charged := Charge(m.(pc := m.pc + 1), StaticCost(others, opcode));
      if charged.halt.Some? then charged
      else match PureOf(opcode)
           case Some(fn) => RunPure(fn, charged)
           case None => others.run(opcode, charged)
  }

  function RefRun<R>(others: Others<R>, code: Bytes, n: nat, m: Machine<R>): Machine<R>
    decreases n
  {
    if n == 0 then m else RefRun(others, code, n - 1, RefStep(others, code, m))
  }

  // ----- The motif table, the recognizer and the dispatcher -----

  /** The ranked table: the pair of opcodes at each rank. */
  function MotifAt(rank: int): Option<(byte, byte)>
  {
    match rank
    case 1 => Some((0x1b, 0x03)) case 2 => Some((0x01, 0x12)) case 3 => Some((0x19, 0x01))
    case 4 => Some((0x03, 0x16)) case 5 => Some((0x03, 0x12)) case 6 => Some((0x01, 0x03))
    case 7 => Some((0x10, 0x15)) case 8 => Some((0x19, 0x16)) case 9 => Some((0x1c, 0x16))
    case 10 => Some((0x01, 0x01)) case 11 => Some((0x15, 0x15)) case 12 => Some((0x16, 0x17))
    case 13 => Some((0x14, 0x15)) case 14 => Some((0x03, 0x19)) case 15 => Some((0x1b, 0x16))
    case 16 => Some((0x03, 0x01)) case 17 => Some((0x16, 0x15)) case 18 => Some((0x11, 0x17))
    case 19 => Some((0x11, 0x15)) case 20 => Some((0x12, 0x15)) case 21 => Some((0x16, 0x14))
    case 22 => Some((0x01, 0x16)) case 23 => Some((0x16, 0x10)) case 24 => Some((0x1b, 0x19))
    case 25 => Some((0x1b, 0x01)) case 26 => Some((0x1b, 0x1c)) case 27 => Some((0x16, 0x01))
    case 28 => Some((0x01, 0x11)) case 29 => Some((0x10, 0x17)) case 30 => Some((0x16, 0x11))
    case 31 => Some((0x16, 0x16)) case 32 => Some((0x1b, 0x17)) case 33 => Some((0x03, 0x02))
    case 34 => Some((0x1c, 0x19)) case 35 => Some((0x16, 0x03)) case 36 => Some((0x01, 0x10))
    case 37 => Some((0x1c, 0x03)) case 38 => Some((0x16, 0x1c)) case 39 => Some((0x17, 0x15))
    case 40 => Some((0x17, 0x17)) case 41 => Some((0x15, 0x17)) case 42 => Some((0x10, 0x14))
    case 43 => Some((0x16, 0x1b)) case 44 => Some((0x03, 0x04)) case 45 => Some((0x02, 0x01))
    case 46 => Some((0x15, 0x03)) case 47 => Some((0x03, 0x06)) case 48 => Some((0x02, 0x18))
    case 49 => Some((0x04, 0x01)) case 50 => Some((0x04, 0x17))
    case _ => None
  }

  /** The sixteen-bit key of a pair. */
  function Pair(first: byte, second: byte): nat
  {
    first * 256 + second
  }

  function MotifRank(first: byte, second: byte): Option<nat>
  {
    match Pair(first, second)
    case 0x1b03 => Some(1) case 0x0112 => Some(2) case 0x1901 => Some(3) case 0x0316 => Some(4)
    case 0x0312 => Some(5) case 0x0103 => Some(6) case 0x1015 => Some(7) case 0x1916 => Some(8)
    case 0x1c16 => Some(9) case 0x0101 => Some(10) case 0x1515 => Some(11) case 0x1617 => Some(12)
    case 0x1415 => Some(13) case 0x0319 => Some(14) case 0x1b16 => Some(15) case 0x0301 => Some(16)
    case 0x1615 => Some(17) case 0x1117 => Some(18) case 0x1115 => Some(19) case 0x1215 => Some(20)
    case 0x1614 => Some(21) case 0x0116 => Some(22) case 0x1610 => Some(23) case 0x1b19 => Some(24)
    case 0x1b01 => Some(25) case 0x1b1c => Some(26) case 0x1601 => Some(27) case 0x0111 => Some(28)
    case 0x1017 => Some(29) case 0x1611 => Some(30) case 0x1616 => Some(31) case 0x1b17 => Some(32)
    case 0x0302 => Some(33) case 0x1c19 => Some(34) case 0x1603 => Some(35) case 0x0110 => Some(36)
    case 0x1c03 => Some(37) case 0x161c => Some(38) case 0x1715 => Some(39) case 0x1717 => Some(40)
    case 0x1517 => Some(41) case 0x1014 => Some(42) case 0x161b => Some(43) case 0x0304 => Some(44)
    case 0x0201 => Some(45) case 0x1503 => Some(46) case 0x0306 => Some(47) case 0x0218 => Some(48)
    case 0x0401 => Some(49) case 0x0417 => Some(50)
    case _ => None
  }

  /** The operation the fused handler runs for the second opcode of a recognized pair. */
  function SecondFn(pair: nat): Option<PureFn>
  {
    match pair
    case 0x1901 | 0x0101 | 0x0301 | 0x1b01 | 0x1601 | 0x0201 | 0x0401 => Some(Add)
    case 0x0302 => Some(Mul)
    case 0x1b03 | 0x0103 | 0x1603 | 0x1c03 | 0x1503 => Some(Sub)
    case 0x0304 => Some(Div)
    case 0x0306 => Some(Rem)
    case 0x1610 | 0x0110 => Some(Lt)
    case 0x0111 | 0x1611 => Some(Gt)
    case 0x0112 | 0x0312 => Some(Slt)
    case 0x1614 | 0x1014 => Some(Eq)
    case 0x1015 | 0x1515 | 0x1415 | 0x1615 | 0x1115 | 0x1215 | 0x1715 => Some(IsZero)
    case 0x0316 | 0x1916 | 0x1c16 | 0x1b16 | 0x0116 | 0x1616 => Some(And)
    case 0x1617 | 0x1117 | 0x1017 | 0x1b17 | 0x1717 | 0x1517 | 0x0417 => Some(Or)
    case 0x0218 => Some(Xor)
    case 0x0319 | 0x1b19 | 0x1c19 => Some(Not)
    case 0x161b => Some(Shl)
    case 0x1b1c | 0x161c => Some(Shr)
    case _ => None
  }

  /** `static_gas`, all 256 opcodes. */
  function StaticGas(opcode: byte): nat
  {
    if opcode == 0x01 || opcode == 0x03 then 3
    else if opcode == 0x02 || 0x04 <= opcode <= 0x07 || opcode == 0x0b then 5
    else if opcode == 0x08 || opcode == 0x09 then 8
    else if opcode == 0x0a then 10
    else if 0x10 <= opcode <= 0x1d then 3
    else if opcode == 0x1e then 5
    else 0
  }

  /** The opcodes whose handler is replaced. */
  function FusedFirsts(): set<byte>
  {
    {0x01, 0x02, 0x03, 0x04, 0x10, 0x11, 0x12, 0x14, 0x15, 0x16, 0x17, 0x19, 0x1b, 0x1c}
  }

  /** A recognized pair starts with a replaced opcode, and the dispatcher runs the second opcode's own operation at its
      own price. */
  lemma DispatcherMatchesTable(first: byte, second: byte)
    ensures SecondFn(Pair(first, second)).Some? <==> MotifRank(first, second).Some?
    ensures SecondFn(Pair(first, second)).Some? ==>
      first in FusedFirsts() && SecondFn(Pair(first, second)) == PureOf(second)
      && StaticGas(second) == PureGas(PureOf(second).value) > 0
  {
    assert Pair(first, second) % 256 == second && Pair(first, second) / 256 == first;
  }

  lemma LowPairInTable(first: byte, second: byte)
    requires first < 0x12
    ensures MotifRank(first, second).Some? ==> MotifAt(MotifRank(first, second).value) == Some((first, second))
  {
    assert Pair(first, second) % 256 == second && Pair(first, second) / 256 == first;
  }

  lemma HighPairInTable(first: byte, second: byte)
    requires first >= 0x12
    ensures MotifRank(first, second).Some? ==> MotifAt(MotifRank(first, second).value) == Some((first, second))
  {
    assert Pair(first, second) % 256 == second && Pair(first, second) / 256 == first;
  }

  lemma RankedPairInTable(first: byte, second: byte)
    ensures MotifRank(first, second).Some? ==> MotifAt(MotifRank(first, second).value) == Some((first, second))
  {
    if first < 0x12 {
      LowPairInTable(first, second);
    } else {
      HighPairInTable(first, second);
    }
  }

  lemma TablePairRanked(rank: int)
    ensures MotifAt(rank).Some? <==> 1 <= rank <= 50
    ensures MotifAt(rank).Some? ==> MotifRank(MotifAt(rank).value.0, MotifAt(rank).value.1) == Some(rank)
  {
  }

  /** The table and the recognizer are inverse: the same fifty pairs, ranked 1 to 50 without repetition. */
  lemma MotifTableAgrees(rank: int, first: byte, second: byte)
    ensures MotifAt(rank).Some? <==> 1 <= rank <= 50
    ensures MotifRank(first, second) == Some(rank) <==> MotifAt(rank) == Some((first, second))
  {
    RankedPairInTable(first, second);
    TablePairRanked(rank);
  }

  // ----- The instruction table -----

  datatype Instruction = Plain(opcode: byte, gas: nat) | Fused(first: byte, gas: nat)

  /** REVM's spec-correct table. */
  ghost predicate IsReferenceTable<R>(others: Others<R>, table: seq<Instruction>)
  {
    |table| == 256 && forall o: byte {:trigger table[o]} :: table[o] == Plain(o, StaticCost(others, o))
  }

  /** Fused handlers at exactly the opcodes in `fused`; prices as in the reference table. */
  ghost predicate HasFused<R>(others: Others<R>, table: seq<Instruction>, fused: set<byte>)
  {
    |table| == 256
    && forall o: byte {:trigger table[o]} ::
         table[o] == if o in fused then Fused(o, StaticCost(others, o)) else Plain(o, StaticCost(others, o))
  }

  method InsertInstruction<R>(ghost others: Others<R>, table: array<Instruction>, opcode: byte, gas: nat,
                              ghost fused: set<byte>)
    requires table.Length == 256 && HasFused(others, table[..], fused) && gas == StaticCost(others, opcode)
    modifies table
    ensures HasFused(others, table[..], fused + {opcode})
  {
    table[opcode] := Fused(opcode, gas);
    assert table[..] == old(table[..])[opcode := Fused(opcode, gas)];
  }

  /** Installation keeps every price and replaces the handlers of exactly the fourteen opcodes. */
  method InstallGadgets<R>(ghost others: Others<R>, table: array<Instruction>)
    requires table.Length == 256 && IsReferenceTable(others, table[..])
    modifies table
    ensures HasFused(others, table[..], FusedFirsts())
  {
    ghost var fused := InstallArithmeticAndOrder(others, table);
    fused := InstallEqualityAndBits(others, table, fused);
  }

  method InstallArithmeticAndOrder<R>(ghost others: Others<R>, table: array<Instruction>)
    returns (ghost fused: set<byte>)
    requires table.Length == 256 && IsReferenceTable(others, table[..])
    modifies table
    ensures fused == {0x01, 0x02, 0x03, 0x04, 0x10, 0x11, 0x12} && HasFused(others, table[..], fused)
  {
    fused := {};
    InsertInstruction(others, table, 0x01, 3, fused);
    fused := fused + {0x01};
    InsertInstruction(others, table, 0x02, 5, fused);
    fused := fused + {0x02};
    InsertInstruction(others, table, 0x03, 3, fused);
    fused := fused + {0x03};
    InsertInstruction(others, table, 0x04, 5, fused);
    fused := fused + {0x04};
    InsertInstruction(others, table, 0x10, 3, fused);
    fused := fused + {0x10};
    InsertInstruction(others, table, 0x11, 3, fused);
    fused := fused + {0x11};
    InsertInstruction(others, table, 0x12, 3, fused);
    fused := fused + {0x12};
  }

  method InstallEqualityAndBits<R>(ghost others: Others<R>, table: array<Instruction>, ghost before: set<byte>)
    returns (ghost fused: set<byte>)
    requires table.Length == 256 && HasFused(others, table[..], before)
    modifies table
    ensures fused == before + {0x14, 0x15, 0x16, 0x17, 0x19, 0x1b, 0x1c} && HasFused(others, table[..], fused)
  {
    fused := before;
    InsertInstruction(others, table, 0x14, 3, fused);
    fused := fused + {0x14};
    InsertInstruction(others, table, 0x15, 3, fused);
    fused := fused + {0x15};
    InsertInstruction(others, table, 0x16, 3, fused);
    fused := fused + {0x16};
    InsertInstruction(others, table, 0x17, 3, fused);
    fused := fused + {0x17};
    InsertInstruction(others, table, 0x19, 3, fused);
    fused := fused + {0x19};
    InsertInstruction(others, table, 0x1b, 3, fused);
    fused := fused + {0x1b};
    InsertInstruction(others, table, 0x1c, 3, fused);
    fused := fused + {0x1c};
  }

  // ----- What the fused interpreter does -----

  /** Which pairs a fused handler recognizes. */
  type Recognizer = (byte, byte) -> bool

  const Top50: Recognizer := (first: byte, second: byte) => MotifRank(first, second).Some?

  /** Only pairs that start with a replaced opcode are recognized. */
  ghost predicate StartsFused(ranked: Recognizer)
  {
    forall first, second :: ranked(first, second) ==> first in FusedFirsts()
  }

  /** Every recognized pair ends with one of the concrete arithmetic opcodes. */
  ghost predicate EndsPure(ranked: Recognizer)
  {
    forall first, second :: ranked(first, second) ==> PureOf(second).Some?
  }

  /** The fused handler's dispatcher runs the second opcode's own operation at its own price, for exactly the ranked
      pairs. */
  ghost predicate DispatchesPair(ranked: Recognizer, first: byte, second: byte)
  {
    && SecondFn(Pair(first, second)) == (if ranked(first, second) then PureOf(second) else None)
    && (ranked(first, second) ==> PureOf(second).Some? && StaticGas(second) == PureGas(PureOf(second).value))
  }

  ghost predicate Dispatches(ranked: Recognizer)
  {
    forall first, second {:trigger DispatchesPair(ranked, first, second)} :: DispatchesPair(ranked, first, second)
  }

  lemma Top50Dispatches()
    ensures Dispatches(Top50)
  {
    forall first: byte, second: byte
      ensures DispatchesPair(Top50, first, second)
    {
      DispatcherMatchesTable(first, second);
    }
  }

  lemma Top50StartsFused()
    ensures StartsFused(Top50) && EndsPure(Top50)
  {
    forall first: byte, second: byte | Top50(first, second)
      ensures first in FusedFirsts() && PureOf(second).Some?
    {
      DispatcherMatchesTable(first, second);
    }
  }

  /** A fused handler entered after its opcode was fetched and charged: run it, then take one reference step if the
      machine is still running and the pair is ranked. */
  function FusedMeaning<R>(others: Others<R>, ranked: Recognizer, code: Bytes, first: byte, m: Machine<R>): Machine<R>
    requires PureOf(first).Some?
  {
    var done := RunPure(PureOf(first).value, m);
    if done.halt.Some? || !ranked(first, OpcodeAt(code, m.pc)) then done else RefStep(others, code, done)
  }

  function Execute<R>(others: Others<R>, ranked: Recognizer, code: Bytes, instruction: Instruction,
                      m: Machine<R>): Machine<R>
  {
    match instruction
    case Plain(o, _) => (match PureOf(o)
                         case Some(fn) => RunPure(fn, m)
                         case None => others.run(o, m))
    case Fused(first, _) => if PureOf(first).Some? then FusedMeaning(others, ranked, code, first, m) else m
  }

  /** One dispatch through an instruction table. */
  function TableStep<R>(others: Others<R>, ranked: Recognizer, table: seq<Instruction>, code: Bytes,
                        m: Machine<R>): Machine<R>
    requires |table| == 256
  {
    if m.halt.Some? then m
    else
      var instruction := table[OpcodeAt(code, m.pc)];
      var charged := Charge(m.(pc := m.pc + 1), instruction.gas);
      if charged.halt.Some? then charged else Execute(others, ranked, code, instruction, charged)
  }

  /** The interpreter object the handlers update in place. */
  class Interpreter<R> {
    const code: Bytes
    var stack: seq<Word>
    var pc: nat
    var gas: nat
    var halt: Option<Halt>
    var memory: nat
    var rest: R

    constructor (code: Bytes, m: Machine<R>)
      ensures this.code == code && View() == m
    {
      this.code := code;
      stack, pc, gas, halt, memory, rest := m.stack, m.pc, m.gas, m.halt, m.memory, m.rest;
    }

    function View(): Machine<R>
      reads this
    {
      Machine(stack, pc, gas, halt, memory, rest)
    }

    method ExecutePure(fn: PureFn)
      modifies this
      ensures View() == RunPure(fn, old(View()))
    {
      var n := |stack|;
      if n < Arity(fn) {
        halt := Some(StackUnderflow);
      } else if Arity(fn) == 1 {
        stack := stack[..n - 1] + [Apply(fn, stack[n - 1], 0)];
      } else {
        stack := stack[..n - 2] + [Apply(fn, stack[n - 1], stack[n - 2])];
      }
    }

    method RecordCost(cost: nat)
      modifies this`gas, this`halt
      ensures View() == Charge(old(View()), cost)
    {
      if gas < cost {
        gas := 0;
        halt := Some(OutOfGas);
      } else {
        gas := gas - cost;
      }
    }

    /** The dispatcher and the price table, as the recognizer sees them. */
    method SecondOperation(ghost ranked: Recognizer, first: byte, second: byte) returns (fn: Option<PureFn>, price: nat)
      requires Dispatches(ranked)
      ensures fn == if ranked(first, second) then PureOf(second) else None
      ensures ranked(first, second) ==> PureOf(second).Some? && price == PureGas(PureOf(second).value)
    {
      assert DispatchesPair(ranked, first, second);
      fn, price := SecondFn(Pair(first, second)), StaticGas(second);
    }

    /** The fused handler, with the second opcode's program counter, gas and halts done by hand. */
    method ExecuteFused(ghost others: Others<R>, ghost ranked: Recognizer, first: byte)
      requires halt.None? && PureOf(first).Some? && Dispatches(ranked)
      modifies this
      ensures View() == FusedMeaning(others, ranked, code, first, old(View()))
    {
      var fn, price := SecondOperation(ranked, first, OpcodeAt(code, pc));
      ExecutePure(PureOf(first).value);
      if halt.Some? || fn.None? {
        return;
      }
      pc := pc + 1;
      RecordCost(price);
      if halt.Some? {
        return;
      }
      ExecutePure(fn.value);
    }

    /** Run one fetched and charged instruction. */
    method Dispatch(others: Others<R>, ghost ranked: Recognizer, instruction: Instruction)
      requires halt.None? && (instruction.Fused? ==> PureOf(instruction.first).Some?) && Dispatches(ranked)
      modifies this
      ensures View() == Execute(others, ranked, code, instruction, old(View()))
    {
      match instruction {
        case Fused(first, _) =>
          ExecuteFused(others, ranked, first);
        case Plain(o, _) =>
          var fn := PureOf(o);
          if fn.Some? {
            ExecutePure(fn.value);
          } else {
            var next := others.run(o, View());
            stack, pc, gas, halt, memory, rest := next.stack, next.pc, next.gas, next.halt, next.memory, next.rest;
          }
      }
    }

    method Step(others: Others<R>, ghost ranked: Recognizer, table: array<Instruction>)
      requires table.Length == 256 && Dispatches(ranked)
      requires forall o :: 0 <= o < 256 && table[o].Fused? ==> PureOf(table[o].first).Some?
      modifies this
      ensures View() == TableStep(others, ranked, table[..], code, old(View()))
    {
      if halt.Some? {
        return;
      }
      var instruction := table[OpcodeAt(code, pc)];
      pc := pc + 1;
      RecordCost(instruction.gas);
      if halt.Some? {
        return;
      }
      Dispatch(others, ranked, instruction);
    }

    /** With the installed table and the shipped motifs, one turn is one or two turns of the reference interpreter. */
    method StepShipped(others: Others<R>, table: array<Instruction>)
      requires table.Length == 256 && HasFused(others, table[..], FusedFirsts())
      modifies this
      ensures View() == RefRun(others, code, Consumed(others, Top50, code, old(View())), old(View()))
    {
      Top50Dispatches();
      Top50StartsFused();
      DispatchSimulates(others, Top50, table[..], code, View());
      forall o | 0 <= o < 256 && table[o].Fused?
        ensures PureOf(table[o].first).Some?
      {
        FusedAreArithmetic(others, table[..], o);
      }
      Step(others, Top50, table);
    }
  }

  lemma FusedAreArithmetic<R>(others: Others<R>, table: seq<Instruction>, o: byte)
    requires HasFused(others, table, FusedFirsts()) && table[o].Fused?
    ensures PureOf(table[o].first).Some?
  {
  }

  // ----- The fused interpreter simulates the reference interpreter -----

  lemma ReferenceTableSteps<R>(others: Others<R>, ranked: Recognizer, table: seq<Instruction>, code: Bytes,
                               m: Machine<R>)
    requires IsReferenceTable(others, table)
    ensures TableStep(others, ranked, table, code, m) == RefStep(others, code, m)
  {
  }

  /** How many reference steps one dispatch of the gadget table performs. */
  function Consumed<R>(others: Others<R>, ranked: Recognizer, code: Bytes, m: Machine<R>): (k: nat)
    ensures 1 <= k <= 2
  {
    var opcode := OpcodeAt(code, m.pc);
    if m.halt.None? && ranked(opcode, OpcodeAt(code, m.pc + 1)) && RefStep(others, code, m).halt.None? then 2 else 1
  }

  lemma RefRunOne<R>(others: Others<R>, code: Bytes, m: Machine<R>)
    ensures RefRun(others, code, 1, m) == RefStep(others, code, m)
    ensures RefRun(others, code, 2, m) == RefStep(others, code, RefStep(others, code, m))
  {
    assert RefRun(others, code, 2, m) == RefRun(others, code, 1, RefStep(others, code, m));
    assert RefRun(others, code, 1, RefStep(others, code, m))
           == RefRun(others, code, 0, RefStep(others, code, RefStep(others, code, m)));
    assert RefRun(others, code, 1, m) == RefRun(others, code, 0, RefStep(others, code, m));
  }

  lemma PlainDispatch<R>(others: Others<R>, ranked: Recognizer, table: seq<Instruction>, code: Bytes, m: Machine<R>,
                         opcode: byte)
    requires |table| == 256 && opcode == OpcodeAt(code, m.pc)
             && table[opcode] == Plain(opcode, StaticCost(others, opcode))
    ensures TableStep(others, ranked, table, code, m) == RefStep(others, code, m)
  {
  }

  lemma FusedDispatch<R>(others: Others<R>, ranked: Recognizer, table: seq<Instruction>, code: Bytes, m: Machine<R>,
                         opcode: byte)
    requires |table| == 256 && opcode == OpcodeAt(code, m.pc)
             && table[opcode] == Fused(opcode, StaticCost(others, opcode))
    requires m.halt.None? && PureOf(opcode).Some?
    ensures var done := RefStep(others, code, m);
            TableStep(others, ranked, table, code, m) ==
              if done.halt.Some? || !ranked(opcode, OpcodeAt(code, m.pc + 1)) then done else RefStep(others, code, done)
  {
    var charged := Charge(m.(pc := m.pc + 1), StaticCost(others, opcode));
    if charged.halt.None? {
      assert TableStep(others, ranked, table, code, m) == FusedMeaning(others, ranked, code, opcode, charged);
    }
  }

  /** One dispatch is exactly one or two reference steps: same stack, program counter, gas and halt reason. */
  lemma DispatchSimulates<R>(others: Others<R>, ranked: Recognizer, table: seq<Instruction>, code: Bytes, m: Machine<R>)
    requires HasFused(others, table, FusedFirsts()) && StartsFused(ranked)
    ensures TableStep(others, ranked, table, code, m) == RefRun(others, code, Consumed(others, ranked, code, m), m)
  {
    var opcode := OpcodeAt(code, m.pc);
    assert table[opcode] == if opcode in FusedFirsts() then Fused(opcode, StaticCost(others, opcode))
           else Plain(opcode, StaticCost(others, opcode));
    RefRunOne(others, code, m);
    if opcode !in FusedFirsts() {
      PlainDispatch(others, ranked, table, code, m, opcode);
    } else if m.halt.None? {
      FusedDispatch(others, ranked, table, code, m, opcode);
    }
  }

  function TableRun<R>(others: Others<R>, ranked: Recognizer, table: seq<Instruction>, code: Bytes, n: nat,
                       m: Machine<R>): Machine<R>
    requires |table| == 256
    decreases n
  {
    if n == 0 then m else TableRun(others, ranked, table, code, n - 1, TableStep(others, ranked, table, code, m))
  }

  lemma {:induction false} RefRunAdd<R>(others: Others<R>, code: Bytes, j: nat, k: nat, m: Machine<R>)
    ensures RefRun(others, code, j + k, m) == RefRun(others, code, k, RefRun(others, code, j, m))
    decreases j
  {
    if j != 0 {
      RefRunAdd(others, code, j - 1, k, RefStep(others, code, m));
    }
  }

  /** n dispatches of the fused interpreter are k reference steps with n <= k <= 2n. */
  lemma {:induction false} RunSimulates<R>(others: Others<R>, ranked: Recognizer, table: seq<Instruction>, code: Bytes,
                                           n: nat, m: Machine<R>) returns (k: nat)
    requires HasFused(others, table, FusedFirsts()) && StartsFused(ranked)
    ensures n <= k <= n + n && TableRun(others, ranked, table, code, n, m) == RefRun(others, code, k, m)
    decreases n
  {
    if n == 0 {
      k := 0;
    } else {
      var c := Consumed(others, ranked, code, m);
      DispatchSimulates(others, ranked, table, code, m);
      var rest := RunSimulates(others, ranked, table, code, n - 1, TableStep(others, ranked, table, code, m));
      RefRunAdd(others, code, c, rest, m);
      k := c + rest;
    }
  }

  lemma {:induction false} HaltedStays<R>(others: Others<R>, code: Bytes, n: nat, m: Machine<R>)
    requires m.halt.Some?
    ensures RefRun(others, code, n, m) == m
  {
    if n != 0 {
      HaltedStays(others, code, n - 1, m);
    }
  }

  lemma HaltedFinal<R>(others: Others<R>, code: Bytes, j: nat, k: nat, m: Machine<R>)
    requires j <= k && RefRun(others, code, j, m).halt.Some?
    ensures RefRun(others, code, k, m) == RefRun(others, code, j, m)
  {
    RefRunAdd(others, code, j, k - j, m);
    HaltedStays(others, code, k - j, RefRun(others, code, j, m));
  }

  /** If the reference run has halted after k steps, the fused run has halted after k dispatches in the same state. */
  lemma ReferenceHaltReached<R>(others: Others<R>, ranked: Recognizer, table: seq<Instruction>, code: Bytes, k: nat,
                                m: Machine<R>)
    requires HasFused(others, table, FusedFirsts()) && StartsFused(ranked) && RefRun(others, code, k, m).halt.Some?
    ensures TableRun(others, ranked, table, code, k, m) == RefRun(others, code, k, m)
  {
    var j := RunSimulates(others, ranked, table, code, k, m);
    HaltedFinal(others, code, k, j, m);
  }

  ghost predicate RefHaltsIn<R>(others: Others<R>, code: Bytes, m: Machine<R>, final: Machine<R>)
  {
    final.halt.Some? && exists k: nat :: RefRun(others, code, k, m) == final
  }

  ghost predicate GadgetHaltsIn<R>(others: Others<R>, ranked: Recognizer, table: seq<Instruction>, code: Bytes,
                                   m: Machine<R>, final: Machine<R>)
    requires |table| == 256
  {
    final.halt.Some? && exists n: nat :: TableRun(others, ranked, table, code, n, m) == final
  }

  lemma HaltsInSame<R>(others: Others<R>, ranked: Recognizer, table: seq<Instruction>, code: Bytes, m: Machine<R>,
                       final: Machine<R>)
    requires HasFused(others, table, FusedFirsts()) && StartsFused(ranked)
    ensures RefHaltsIn(others, code, m, final) <==> GadgetHaltsIn(others, ranked, table, code, m, final)
  {
    if RefHaltsIn(others, code, m, final) {
      var k: nat :| RefRun(others, code, k, m) == final;
      ReferenceHaltReached(others, ranked, table, code, k, m);
      assert TableRun(others, ranked, table, code, k, m) == final;
    }
    if GadgetHaltsIn(others, ranked, table, code, m, final) {
      var n: nat :| TableRun(others, ranked, table, code, n, m) == final;
      var k := RunSimulates(others, ranked, table, code, n, m);
    }
  }

  /** Meaning is preserved for every bytecode, start state and gas: the two interpreters halt in the same final
      states. */
  lemma FusionPreservesMeaning<R>(others: Others<R>, table: seq<Instruction>, code: Bytes, m: Machine<R>,
                                  final: Machine<R>)
    requires HasFused(others, table, FusedFirsts())
    ensures RefHaltsIn(others, code, m, final) <==> GadgetHaltsIn(others, Top50, table, code, m, final)
  {
    Top50StartsFused();
    HaltsInSame(others, Top50, table, code, m, final);
  }

  /** A run has at most one final state. */
  lemma FinalStateUnique<R>(others: Others<R>, code: Bytes, m: Machine<R>, a: Machine<R>, b: Machine<R>)
    requires RefHaltsIn(others, code, m, a) && RefHaltsIn(others, code, m, b)
    ensures a == b
  {
    var j: nat :| RefRun(others, code, j, m) == a;
    var k: nat :| RefRun(others, code, k, m) == b;
    if j <= k {
      HaltedFinal(others, code, j, k, m);
    } else {
      HaltedFinal(others, code, k, j, m);
    }
  }
}
