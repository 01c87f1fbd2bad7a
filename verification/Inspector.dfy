/** The certified inspector: it watches every instruction, call, creation and selfdestruct of a transaction and latches
    the first violation. */
module Inspector {
  import opened Bytes
  import opened Gadgets
  import opened FrameObserver
  import opened Policy

  datatype Scheme = PlainCall | Static | Delegate | CallCode

  datatype Event =
    | StepEvent(opcode: byte, pc: nat, memory: nat)
    | StepEndEvent(pc: nat, memory: nat)
    | CallEvent(scheme: Scheme, caller: Address, target: Address, input: Bytes)
    | CreateEvent
    | SelfDestructEvent(contract: Address, target: Address)

  datatype TxKind = CreateTx | CallTx(target: Address)

  function KindOf(scheme: Scheme): Option<CallKind>
  {
    match scheme
    case PlainCall => Some(Call)
    case Static => Some(StaticCall)
    case Delegate => Some(DelegateCall)
    case CallCode => None
  }

  function CallViolation(policy: ExecutionPolicy, kind: CallKind, caller: Address, target: Address,
                         input: Bytes): Option<Violation>
  {
    if !AllowsCall(policy, caller, target, kind, Selector(input))
    then Some(CallOutside(caller, target, kind, Selector(input)))
    else ValidateArguments(policy, target, Selector(input), input)
  }

  function OnCall(policy: ExecutionPolicy, scheme: Scheme, caller: Address, target: Address, input: Bytes,
                  o: Observer): Observer
  {
    if o.violation.Some? then o
    else
      match KindOf(scheme)
      case None => o.(violation := Some(CallCodeUsed))
      case Some(kind) =>
        var calls := if target in policy.precompiles then Sat(o.work.precompileCalls, 1) else o.work.precompileCalls;
        o.(violation := CallViolation(policy, kind, caller, target, input), work := o.work.(precompileCalls := calls))
  }

  function OnEvent(policy: ExecutionPolicy, counting: bool, e: Event, o: Observer): Observer
  {
    match e
    case StepEvent(opcode, pc, memory) => OnStep(policy.maxMemoryBytes, counting, opcode, pc, memory, o)
    case StepEndEvent(pc, memory) => OnStepEnd(policy.maxMemoryBytes, pc, memory, o)
    case CallEvent(scheme, caller, target, input) => OnCall(policy, scheme, caller, target, input, o)
    case CreateEvent => if policy.allowCreation then o else o.(violation := Latch(o.violation, CreationDisabled))
    case SelfDestructEvent(contract, target) =>
      if policy.allowSelfDestruct then o
      else o.(violation := Latch(o.violation, SelfDestructDisabled(contract, target)))
  }

  /** What the inspector has recorded after a whole trace. */
  function Observe(policy: ExecutionPolicy, counting: bool, trace: seq<Event>, o: Observer): Observer
    decreases |trace|
  {
    if trace == [] then o else Observe(policy, counting, trace[1..], OnEvent(policy, counting, trace[0], o))
  }

  /** The check of a transaction's outermost frame. */
  function EntryViolation(policy: ExecutionPolicy, caller: Address, kind: TxKind, input: Bytes): Option<Violation>
  {
    if !policy.certified then None
    else match kind
         case CreateTx => if policy.allowCreation then None else Some(CreationDisabled)
         case CallTx(target) => CallViolation(policy, Call, caller, target, input)
  }

  const NO_WORK := Work(0, 0, 0, 0, 0, 0, 0)
  const NEW_OBSERVER := Observer(None, NO_WORK, None)

  // ----- The certified envelope -----

  /** A call the certified envelope allows: allow-listed, and every ruled argument names an active member. */
  ghost predicate CallAllowed(policy: ExecutionPolicy, kind: CallKind, caller: Address, target: Address, input: Bytes)
  {
    AllowsCall(policy, caller, target, kind, Selector(input)) && NamesMembers(policy, target, input)
  }

  lemma CallExact(policy: ExecutionPolicy, kind: CallKind, caller: Address, target: Address, input: Bytes)
    ensures CallViolation(policy, kind, caller, target, input).None?
            <==> CallAllowed(policy, kind, caller, target, input)
  {
    ValidateArgumentsExact(policy, target, input);
  }

  /** A transaction whose outermost frame lies inside the envelope. */
  ghost predicate EntryAllowed(policy: ExecutionPolicy, caller: Address, kind: TxKind, input: Bytes)
  {
    policy.certified ==>
      match kind
      case CreateTx => policy.allowCreation
      case CallTx(target) => CallAllowed(policy, Call, caller, target, input)
  }

  /** The entry check passes exactly the transactions that create where creation is allowed, or make an allow-listed
      call whose ruled arguments name active members. */
  lemma EntryExact(policy: ExecutionPolicy, caller: Address, kind: TxKind, input: Bytes)
    ensures EntryViolation(policy, caller, kind, input).None? <==> EntryAllowed(policy, caller, kind, input)
  {
    if kind.CallTx? {
      CallExact(policy, Call, caller, kind.target, input);
    }
  }

  // ----- The inspector object -----

  class CertifiedInspector {
    const policy: ExecutionPolicy
    const gadgets: bool
    const host: bool
    var violation: Option<Violation>
    var work: Work
    var possible: Option<nat>

    constructor (policy: ExecutionPolicy, gadgets: bool, host: bool)
      ensures this.policy == policy && this.gadgets == gadgets && this.host == host && View() == NEW_OBSERVER
    {
      this.policy := policy;
      this.gadgets := gadgets;
      this.host := host;
      violation, work, possible := None, NO_WORK, None;
    }

    /** Whether fused pairs are counted. */
    predicate Counting()
    {
      gadgets && host
    }

    function View(): Observer
      reads this
    {
      Observer(violation, work, possible)
    }

    /** Only the violation is cleared between transactions. */
    method Reset()
      modifies this`violation
      ensures View() == old(View()).(violation := None)
    {
      violation := None;
    }

    method LatchMemoryCap(size: nat)
      modifies this`violation
      ensures violation == LatchMemory(old(violation), policy.maxMemoryBytes, size)
    {
      if size > policy.maxMemoryBytes && violation.None? {
        violation := Some(MemoryExceeded(size, policy.maxMemoryBytes));
      }
    }

    method Step(opcode: byte, pc: nat, size: nat)
      modifies this
      ensures View() == OnEvent(policy, Counting(), StepEvent(opcode, pc, size), old(View()))
    {
      work := work.(opcodeSteps := Sat(work.opcodeSteps, 1));
      possible := if Counting() && opcode in FusedFirsts() then Some(pc) else None;
      if opcode == 0x20 {
        work := work.(keccakOpcodes := Sat(work.keccakOpcodes, 1));
      }
      if IsCallOpcode(opcode) {
        work := work.(callOpcodes := Sat(work.callOpcodes, 1));
      }
      if size > work.maxMemory {
        work := work.(maxMemory := size);
      }
      LatchMemoryCap(size);
    }

    method StepEnd(pc: nat, size: nat)
      modifies this
      ensures View() == OnEvent(policy, Counting(), StepEndEvent(pc, size), old(View()))
    {
      if possible.Some? {
        if pc == possible.value + 2 {
          work := work.(opcodeSteps := Sat(work.opcodeSteps, 1),
          fusedHits := Sat(work.fusedHits, 1),
          fusedOpcodes := Sat(work.fusedOpcodes, 2));
        }
        possible := None;
      }
      LatchMemoryCap(size);
    }

    method OnCallFrame(scheme: Scheme, caller: Address, target: Address, input: Bytes)
      modifies this
      ensures View() == OnEvent(policy, Counting(), CallEvent(scheme, caller, target, input), old(View()))
    {
      if violation.Some? {
        return;
      }
      var kind := KindOf(scheme);
      if kind.None? {
        violation := Some(CallCodeUsed);
        return;
      }
      if target in policy.precompiles {
        work := work.(precompileCalls := Sat(work.precompileCalls, 1));
      }
      var selector := Selector(input);
      if !AllowsCall(policy, caller, target, kind.value, selector) {
        violation := Some(CallOutside(caller, target, kind.value, selector));
      } else {
        violation := ValidateArguments(policy, target, selector, input);
      }
    }

    method OnCreateFrame()
      modifies this`violation
      ensures View() == OnEvent(policy, Counting(), CreateEvent, old(View()))
    {
      if !policy.allowCreation && violation.None? {
        violation := Some(CreationDisabled);
      }
    }

    method OnSelfDestruct(contract: Address, target: Address)
      modifies this`violation
      ensures View() == OnEvent(policy, Counting(), SelfDestructEvent(contract, target), old(View()))
    {
      if !policy.allowSelfDestruct && violation.None? {
        violation := Some(SelfDestructDisabled(contract, target));
      }
    }

    method ValidateTransactionEntry(caller: Address, kind: TxKind, input: Bytes) returns (e: Option<Violation>)
      ensures e.None? <==> EntryAllowed(policy, caller, kind, input)
      ensures e == EntryViolation(policy, caller, kind, input)
    {
      EntryExact(policy, caller, kind, input);
      if !policy.certified {
        return None;
      }
      match kind {
        case CreateTx =>
          e := if policy.allowCreation then None else Some(CreationDisabled);
        case CallTx(target) =>
          var selector := Selector(input);
          if !AllowsCall(policy, caller, target, Call, selector) {
            return Some(CallOutside(caller, target, Call, selector));
          }
          e := ValidateArguments(policy, target, selector, input);
      }
    }

    /** Feed a whole trace through the callbacks. */
    method Watch(trace: seq<Event>)
      modifies this
      ensures View() == Observe(policy, Counting(), trace, old(View()))
    {
      var i := 0;
      assert trace[0..] == trace;
      while i < |trace|
        invariant 0 <= i <= |trace|
        invariant Observe(policy, Counting(), trace[i..], View()) == Observe(policy, Counting(), trace, old(View()))
      {
        assert trace[i..][0] == trace[i] && trace[i..][1..] == trace[i + 1..];
        match trace[i] {
          case StepEvent(opcode, pc, memory) => Step(opcode, pc, memory);
          case StepEndEvent(pc, memory) => StepEnd(pc, memory);
          case CallEvent(scheme, caller, target, input) => OnCallFrame(scheme, caller, target, input);
          case CreateEvent => OnCreateFrame();
          case SelfDestructEvent(contract, target) => OnSelfDestruct(contract, target);
        }
        i := i + 1;
      }
    }
  }

  // ----- What an unlatched inspector proves -----

  /** One event inside the envelope: allow-listed calls, no CALLCODE, creation or selfdestruct, memory under the cap. */
  ghost predicate EventAllowed(policy: ExecutionPolicy, e: Event)
  {
    match e
    case StepEvent(_, _, memory) => memory <= policy.maxMemoryBytes
    case StepEndEvent(_, memory) => memory <= policy.maxMemoryBytes
    case CallEvent(scheme, caller, target, input) =>
      KindOf(scheme).Some? && CallAllowed(policy, KindOf(scheme).value, caller, target, input)
    case CreateEvent => policy.allowCreation
    case SelfDestructEvent(_, _) => policy.allowSelfDestruct
  }

  lemma EventExact(policy: ExecutionPolicy, counting: bool, e: Event, o: Observer)
    ensures OnEvent(policy, counting, e, o).violation.None? <==> o.violation.None? && EventAllowed(policy, e)
  {
    if e.CallEvent? && KindOf(e.scheme).Some? {
      CallExact(policy, KindOf(e.scheme).value, e.caller, e.target, e.input);
    }
  }

  /** Nothing is latched after a trace exactly when every event of it was inside the envelope. */
  lemma {:induction false} ObserveExact(policy: ExecutionPolicy, counting: bool, trace: seq<Event>, o: Observer)
    ensures Observe(policy, counting, trace, o).violation.None?
       <==> o.violation.None? && forall i :: 0 <= i < |trace| ==> EventAllowed(policy, trace[i])
    decreases |trace|
  {
    if trace != [] {
      EventExact(policy, counting, trace[0], o);
      ObserveExact(policy, counting, trace[1..], OnEvent(policy, counting, trace[0], o));
      assert forall i :: 0 <= i < |trace[1..]| ==> trace[1..][i] == trace[i + 1];
      assert forall i :: 0 < i < |trace| ==> trace[i] == trace[1..][i - 1];
    }
  }

  /** A trace may be watched in two parts. */
  lemma {:induction false} ObserveAppend(policy: ExecutionPolicy, counting: bool, a: seq<Event>, b: seq<Event>,
                                         o: Observer)
    ensures Observe(policy, counting, a + b, o) == Observe(policy, counting, b, Observe(policy, counting, a, o))
    decreases |a|
  {
    if a == [] {
      assert a + b == b;
    } else {
      assert (a + b)[1..] == a[1..] + b;
      ObserveAppend(policy, counting, a[1..], b, OnEvent(policy, counting, a[0], o));
    }
  }

  // ----- What the record says -----

  /** What the inspector reports for an event outside the envelope. */
  function Report(policy: ExecutionPolicy, e: Event): Option<Violation>
  {
    match e
    case StepEvent(_, _, memory) => Some(MemoryExceeded(memory, policy.maxMemoryBytes))
    case StepEndEvent(_, memory) => Some(MemoryExceeded(memory, policy.maxMemoryBytes))
    case CallEvent(scheme, caller, target, input) =>
      if KindOf(scheme).None? then Some(CallCodeUsed)
      else if !AllowsCall(policy, caller, target, KindOf(scheme).value, Selector(input))
      then Some(CallOutside(caller, target, KindOf(scheme).value, Selector(input)))
      else ValidateArguments(policy, target, Selector(input), input)
    case CreateEvent => Some(CreationDisabled)
    case SelfDestructEvent(contract, target) => Some(SelfDestructDisabled(contract, target))
  }

  lemma {:induction false} LatchedStays(policy: ExecutionPolicy, counting: bool, trace: seq<Event>, o: Observer)
    requires o.violation.Some?
    ensures Observe(policy, counting, trace, o).violation == o.violation
    decreases |trace|
  {
    if trace != [] {
      LatchedStays(policy, counting, trace[1..], OnEvent(policy, counting, trace[0], o));
    }
  }

  /** The violation an inspector holds after a trace is the report of the first event outside the envelope. */
  lemma {:induction false} FirstViolationKept(policy: ExecutionPolicy, counting: bool, trace: seq<Event>, o: Observer,
                                              i: nat)
    requires o.violation.None? && i < |trace| && !EventAllowed(policy, trace[i])
    requires forall j :: 0 <= j < i ==> EventAllowed(policy, trace[j])
    ensures Observe(policy, counting, trace, o).violation == Report(policy, trace[i])
    ensures Observe(policy, counting, trace, o).violation.Some?
    decreases |trace|
  {
    EventExact(policy, counting, trace[0], o);
    var next := OnEvent(policy, counting, trace[0], o);
    if i == 0 {
      LatchedStays(policy, counting, trace[1..], next);
    } else {
      assert EventAllowed(policy, trace[0]);
      FirstViolationKept(policy, counting, trace[1..], next, i - 1);
    }
  }

  /** How many events satisfy a predicate. */
  function Count(trace: seq<Event>, counted: Event -> bool): nat
  {
    if trace == [] then 0 else (if counted(trace[0]) then 1 else 0) + Count(trace[1..], counted)
  }

  function MostMemory(trace: seq<Event>, held: nat): nat
    decreases |trace|
  {
    if trace == [] then held
    else MostMemory(trace[1..], if trace[0].StepEvent? && trace[0].memory > held then trace[0].memory else held)
  }

  const ANY_STEP := (e: Event) => e.StepEvent?
  const KECCAK_STEP := (e: Event) => e.StepEvent? && e.opcode == 0x20
  const CALL_STEP := (e: Event) => e.StepEvent? && e.opcode in {0xf0, 0xf1, 0xf2, 0xf4, 0xf5, 0xfa}

  /** Without fused-pair counting the record counts the instructions, the hashing ones and the calling ones, and keeps
      the largest memory, whatever was latched. */
  lemma {:induction false} CountersExact(policy: ExecutionPolicy, trace: seq<Event>, o: Observer)
    requires o.possible.None? && o.work.opcodeSteps < TWO_64 && o.work.keccakOpcodes < TWO_64
             && o.work.callOpcodes < TWO_64
    ensures var w := Observe(policy, false, trace, o).work;
            && w.opcodeSteps == Sat(o.work.opcodeSteps, Count(trace, ANY_STEP))
            && w.keccakOpcodes == Sat(o.work.keccakOpcodes, Count(trace, KECCAK_STEP))
            && w.callOpcodes == Sat(o.work.callOpcodes, Count(trace, CALL_STEP))
            && w.maxMemory == MostMemory(trace, o.work.maxMemory)
    decreases |trace|
  {
    if trace != [] {
      CountersExact(policy, trace[1..], OnEvent(policy, false, trace[0], o));
    }
  }
}
