/** The per-instruction side of the certified inspector, and what fusing two opcodes under one dispatch does to it. */
module FrameObserver {
  import opened Bytes
  import opened Gadgets

  datatype CallKind = Call | StaticCall | DelegateCall

  datatype Violation =
    | MemoryExceeded(size: nat, cap: nat)
    | CallCodeUsed
    | CallOutside(caller: Address, target: Address, kind: CallKind, selector: Option<Bytes>)
    | BadArgument(index: nat)
    | CreationDisabled
    | SelfDestructDisabled(contract: Address, target: Address)

  datatype Work = Work(
    opcodeSteps: nat,
    fusedHits: nat,
    fusedOpcodes: nat,
    keccakOpcodes: nat,
    callOpcodes: nat,
    precompileCalls: nat,
    maxMemory: nat)

  datatype Observer = Observer(violation: Option<Violation>, work: Work, possible: Option<nat>)

  /** 64-bit saturating addition. */
  function Sat(n: nat, k: nat): nat
  {
    if n + k >= TWO_64 then TWO_64 - 1 else n + k
  }

  /** Keep the first violation. */
  function Latch(held: Option<Violation>, found: Violation): Option<Violation>
  {
    if held.Some? then held else Some(found)
  }

  function LatchMemory(o: Option<Violation>, cap: nat, size: nat): Option<Violation>
  {
    if size > cap then Latch(o, MemoryExceeded(size, cap)) else o
  }

  predicate IsCallOpcode(opcode: byte)
  {
    opcode in {0xf0, 0xf1, 0xf2, 0xf4, 0xf5, 0xfa}
  }

  /** The callback before an instruction; `counting` says that fused pairs are counted, which takes the gadgets and a
      host build: the RISC-V guest compiles the counting out. */
  function OnStep(cap: nat, counting: bool, opcode: byte, pc: nat, size: nat, o: Observer): Observer
  {
    var work := o.work.(
                opcodeSteps := Sat(o.work.opcodeSteps, 1),
                keccakOpcodes := if opcode == 0x20 then Sat(o.work.keccakOpcodes, 1) else o.work.keccakOpcodes,
                callOpcodes := if IsCallOpcode(opcode) then Sat(o.work.callOpcodes, 1) else o.work.callOpcodes,
                maxMemory := if size > o.work.maxMemory then size else o.work.maxMemory);
    Observer(LatchMemory(o.violation, cap, size), work, if counting && opcode in FusedFirsts() then Some(pc) else None)
  }

  /** The callback after an instruction. */
  function OnStepEnd(cap: nat, pc: nat, size: nat, o: Observer): Observer
  {
    var work := if o.possible.Some? && pc == o.possible.value + 2
                then o.work.(opcodeSteps := Sat(o.work.opcodeSteps, 1),
                             fusedHits := Sat(o.work.fusedHits, 1),
                             fusedOpcodes := Sat(o.work.fusedOpcodes, 2))
                else o.work;
    Observer(LatchMemory(o.violation, cap, size), work, None)
  }

  /** One turn of the inspected instruction loop. */
  function ObservedStep<R>(others: Others<R>, ranked: Recognizer, table: seq<Instruction>, code: Bytes, cap: nat,
                           counting: bool, m: Machine<R>, o: Observer): (Machine<R>, Observer)
    requires |table| == 256
  {
    if m.halt.Some? then (m, o)
    else
      var before := OnStep(cap, counting, OpcodeAt(code, m.pc), m.pc, m.memory, o);
      var next := TableStep(others, ranked, table, code, m);
      (next, OnStepEnd(cap, next.pc, next.memory, before))
  }

  function Iterate<X>(f: X -> X, n: nat, x: X): X
    decreases n
  {
    if n == 0 then x else Iterate(f, n - 1, f(x))
  }

  function Turn<R>(others: Others<R>, ranked: Recognizer, table: seq<Instruction>, code: Bytes, cap: nat,
                   counting: bool): ((Machine<R>, Observer)) -> (Machine<R>, Observer)
    requires |table| == 256
  {
    (x: (Machine<R>, Observer)) => ObservedStep(others, ranked, table, code, cap, counting, x.0, x.1)
  }

  /** n turns of the inspected instruction loop. */
  function ObservedRun<R>(others: Others<R>, ranked: Recognizer, table: seq<Instruction>, code: Bytes, cap: nat,
                          counting: bool, n: nat, m: Machine<R>, o: Observer): (Machine<R>, Observer)
    requires |table| == 256
  {
    Iterate(Turn(others, ranked, table, code, cap, counting), n, (m, o))
  }

  /** What does not depend on fusion: everything but the motif counters and, where pairs go uncounted, the step
      counter. */
  function Comparable(host: bool, work: Work): Work
  {
    work.(fusedHits := 0, fusedOpcodes := 0, opcodeSteps := if host then work.opcodeSteps else 0)
  }

  ghost predicate SameRecord(host: bool, a: Observer, b: Observer)
  {
    a.violation == b.violation && Comparable(host, a.work) == Comparable(host, b.work)
  }

  ghost predicate Paired<R>(host: bool, a: (Machine<R>, Observer), b: (Machine<R>, Observer))
  {
    a.0 == b.0 && SameRecord(host, a.1, b.1)
  }

  /** Arithmetic never touches memory and moves the program counter only by the fetch. */
  lemma PureStepFrame<R>(others: Others<R>, code: Bytes, m: Machine<R>)
    requires m.halt.None? && PureOf(OpcodeAt(code, m.pc)).Some?
    ensures RefStep(others, code, m).memory == m.memory && RefStep(others, code, m).pc == m.pc + 1
  {
  }

  ghost predicate Tables<R>(others: Others<R>, ranked: Recognizer, plain: seq<Instruction>, fused: seq<Instruction>)
  {
    && IsReferenceTable(others, plain)
    && HasFused(others, fused, FusedFirsts()) && StartsFused(ranked) && EndsPure(ranked)
  }

  lemma FusedFirstsArePure(opcode: byte)
    requires opcode in FusedFirsts()
    ensures PureOf(opcode).Some? && opcode != 0x20 && !IsCallOpcode(opcode)
  {
  }

  lemma PureOpcodesPlain(opcode: byte)
    requires PureOf(opcode).Some?
    ensures opcode != 0x20 && !IsCallOpcode(opcode)
  {
  }

  /** A single dispatch that consumes one opcode is observed the same way. */
  lemma ObservedSingle<R>(others: Others<R>, ranked: Recognizer, plain: seq<Instruction>, fused: seq<Instruction>,
                          code: Bytes, cap: nat, host: bool, m: Machine<R>, o: Observer, r: Observer)
    requires Tables(others, ranked, plain, fused) && SameRecord(host, o, r) && Consumed(others, ranked, code, m) == 1
    ensures Paired(host, ObservedStep(others, ranked, fused, code, cap, host, m, o),
                   ObservedStep(others, ranked, plain, code, cap, false, m, r))
  {
    if m.halt.None? {
      var opcode := OpcodeAt(code, m.pc);
      DispatchSimulates(others, ranked, fused, code, m);
      RefRunOne(others, code, m);
      ReferenceTableSteps(others, ranked, plain, code, m);
      if opcode in FusedFirsts() {
        FusedFirstsArePure(opcode);
        PureStepFrame(others, code, m);
      }
    }
  }

  /** A fused dispatch leaves the record two separate dispatches leave. */
  lemma ObservedDouble<R>(others: Others<R>, ranked: Recognizer, plain: seq<Instruction>, fused: seq<Instruction>,
                          code: Bytes, cap: nat, host: bool, m: Machine<R>, o: Observer, r: Observer)
    requires Tables(others, ranked, plain, fused) && SameRecord(host, o, r) && Consumed(others, ranked, code, m) == 2
    ensures var (mid, after) := ObservedStep(others, ranked, plain, code, cap, false, m, r);
            Paired(host, ObservedStep(others, ranked, fused, code, cap, host, m, o),
                   ObservedStep(others, ranked, plain, code, cap, false, mid, after))
  {
    var opcode, mid := OpcodeAt(code, m.pc), RefStep(others, code, m);
    var second := OpcodeAt(code, m.pc + 1);
    assert ranked(opcode, second);
    FusedFirstsArePure(opcode);
    PureOpcodesPlain(second);
    PureStepFrame(others, code, m);
    PureStepFrame(others, code, mid);
    DispatchSimulates(others, ranked, fused, code, m);
    RefRunOne(others, code, m);
    ReferenceTableSteps(others, ranked, plain, code, m);
    ReferenceTableSteps(others, ranked, plain, code, mid);
    ObservedDoubleRecord(cap, host, opcode, second, m.pc, m.memory, o, r);
  }

  lemma ObservedDoubleRecord(cap: nat, host: bool, first: byte, second: byte, pc: nat, size: nat, o: Observer,
                             r: Observer)
    requires SameRecord(host, o, r) && first in FusedFirsts()
    requires first != 0x20 && !IsCallOpcode(first) && second != 0x20 && !IsCallOpcode(second)
    ensures var once := OnStepEnd(cap, pc + 1, size, OnStep(cap, false, first, pc, size, r));
            SameRecord(host, OnStepEnd(cap, pc + 2, size, OnStep(cap, host, first, pc, size, o)),
                       OnStepEnd(cap, pc + 2, size, OnStep(cap, false, second, pc + 1, size, once)))
  {
  }

  ghost predicate Matched<X, Y>(fast: X -> X, slow: Y -> Y, related: (X, Y) -> bool, a: X, b: Y)
  {
    related(a, b) ==> related(fast(a), slow(b)) || related(fast(a), slow(slow(b)))
  }

  /** If every fast step is matched by one or two slow steps, n fast steps are matched by k slow ones, n <= k <= 2n. */
  lemma {:induction false} Simulates<X(!new), Y(!new)>(fast: X -> X, slow: Y -> Y, related: (X, Y) -> bool, n: nat,
                                                       x: X, y: Y) returns (k: nat)
    requires related(x, y)
    requires forall a, b {:trigger Matched(fast, slow, related, a, b)} :: Matched(fast, slow, related, a, b)
    ensures n <= k <= n + n && related(Iterate(fast, n, x), Iterate(slow, k, y))
    decreases n
  {
    assert Matched(fast, slow, related, x, y);
    if n == 0 {
      k := 0;
    } else if related(fast(x), slow(y)) {
      k := Simulates(fast, slow, related, n - 1, fast(x), slow(y));
      k := k + 1;
    } else {
      k := Simulates(fast, slow, related, n - 1, fast(x), slow(slow(y)));
      assert Iterate(slow, k + 2, y) == Iterate(slow, k + 1, slow(y));
      k := k + 2;
    }
  }

  /** n fused dispatches are observed like k plain ones, n <= k <= 2n: same machine, same violation, same KECCAK, call
      and memory counters, and on the host the same number of steps. */
  lemma ObservationPreserved<R(!new)>(others: Others<R>, ranked: Recognizer, plain: seq<Instruction>,
                                      fused: seq<Instruction>, code: Bytes, cap: nat, host: bool, n: nat, m: Machine<R>,
                                      o: Observer, r: Observer) returns (k: nat)
    requires Tables(others, ranked, plain, fused) && SameRecord(host, o, r)
    ensures n <= k <= n + n
    ensures Paired(host, ObservedRun(others, ranked, fused, code, cap, host, n, m, o),
                   ObservedRun(others, ranked, plain, code, cap, false, k, m, r))
  {
    var fast, slow := Turn(others, ranked, fused, code, cap, host), Turn(others, ranked, plain, code, cap, false);
    var related := (a: (Machine<R>, Observer), b: (Machine<R>, Observer)) => Paired(host, a, b);
    forall a: (Machine<R>, Observer), b: (Machine<R>, Observer)
      ensures Matched(fast, slow, related, a, b)
    {
      if Paired(host, a, b) {
        TurnRelated(others, ranked, plain, fused, code, cap, host, a, b);
      }
    }
    k := Simulates(fast, slow, related, n, (m, o), (m, r));
  }

  lemma TurnRelated<R>(others: Others<R>, ranked: Recognizer, plain: seq<Instruction>, fused: seq<Instruction>,
                       code: Bytes, cap: nat, host: bool, a: (Machine<R>, Observer), b: (Machine<R>, Observer))
    requires Tables(others, ranked, plain, fused) && Paired(host, a, b)
    ensures var fast, slow := Turn(others, ranked, fused, code, cap, host),
            Turn(others, ranked, plain, code, cap, false);
            Paired(host, fast(a), slow(b)) || Paired(host, fast(a), slow(slow(b)))
  {
    if Consumed(others, ranked, code, a.0) == 1 {
      ObservedSingle(others, ranked, plain, fused, code, cap, host, a.0, a.1, b.1);
    } else {
      ObservedDouble(others, ranked, plain, fused, code, cap, host, a.0, a.1, b.1);
    }
  }
}
