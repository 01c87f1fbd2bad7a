/** Transactions as arbitrary deterministic programs over database reads, frame boundaries and instruction loops; the
    fused interpreter over a cached state runs every one of them like the reference interpreter over the plain state. */
module Evm {
  import opened Bytes
  import opened State
  import opened StateLaws
  import opened Gadgets
  import opened FrameObserver
  import opened Policy
  import opened Inspector
  import opened Block
  import opened BlockData
  import opened BlockLaws

  /** What a transaction may ask the database; account reads always come with the decoded code. */
  datatype Query =
    | ReadAccount(address: Address) | ReadSlot(address: Address, slot: U256) | ReadHash(number: U64)
    | HasOnlyStorage(address: Address)

  datatype Answer =
    | AccountAnswer(account: Result<Option<AccountInfo>, DbError>)
    | SlotAnswer(value: Result<U256, DbError>)
    | HashAnswer(hash: B256)
    | CollisionAnswer(collides: bool)

  /** Frame boundaries the inspector sees. */
  datatype Boundary =
    | Called(scheme: Scheme, caller: Address, target: Address, input: Bytes) | Created
    | Destroyed(contract: Address, target: Address)

  function ToEvent(b: Boundary): Event
  {
    match b
    case Called(scheme, caller, target, input) => CallEvent(scheme, caller, target, input)
    case Created => CreateEvent
    case Destroyed(contract, target) => SelfDestructEvent(contract, target)
  }

  /** What a transaction in state S does next. */
  datatype Action<S, !R> =
    | Ask(q: Query, k: Answer -> S)
    | Cross(b: Boundary, next: S)
    | RunFrame(code: Bytes, m: Machine<R>, resume: Machine<R> -> S)
    | Finished(changes: Changes, gas: U64, success: bool)
    | Aborted(error: int)

  /** An instruction table with the meaning of its unmodelled opcodes. */
  datatype Interp<!R> = Interp(others: Others<R>, ranked: Recognizer, table: seq<Instruction>)

  function AnswerTo(p: Platform, db: Db, q: Query): Answer
  {
    match q
    case ReadAccount(a) => AccountAnswer(Basic(p, db, a))
    case ReadSlot(a, k) => SlotAnswer(Storage(db, a, k))
    case ReadHash(n) => HashAnswer(BlockHash(db, n))
    case HasOnlyStorage(a) =>
      CollisionAnswer(a in db.accounts && db.accounts[a].storage != map[] && db.accounts[a].nonce == 0
                      && db.accounts[a].code == [])
  }

  lemma AnswersAlike(p: Platform, db: Db, plain: Db, q: Query)
    requires Shadows(p, db, plain)
    ensures AnswerTo(p, db, q) == AnswerTo(p, plain, q)
  {
    if q.ReadAccount? {
      ReadsIgnoreCache(p, db, q.address);
    }
  }

  // ----- Instruction loops and their traces -----

  function StepTrace<R>(it: Interp<R>, code: Bytes, m: Machine<R>): seq<Event>
    requires |it.table| == 256
  {
    if m.halt.Some? then []
    else
      var next := TableStep(it.others, it.ranked, it.table, code, m);
      [StepEvent(OpcodeAt(code, m.pc), m.pc, m.memory), StepEndEvent(next.pc, next.memory)]
  }

  /** The callbacks of n turns of the instruction loop. */
  function LoopTrace<R>(it: Interp<R>, code: Bytes, n: nat, m: Machine<R>): seq<Event>
    requires |it.table| == 256
    decreases n
  {
    if n == 0 then []
    else StepTrace(it, code, m) + LoopTrace(it, code, n - 1, TableStep(it.others, it.ranked, it.table, code, m))
  }

  function LoopRun<R>(it: Interp<R>, code: Bytes, n: nat, m: Machine<R>): Machine<R>
    requires |it.table| == 256
  {
    TableRun(it.others, it.ranked, it.table, code, n, m)
  }

  lemma StepObserved<R>(it: Interp<R>, code: Bytes, policy: ExecutionPolicy, gadgets: bool, m: Machine<R>, o: Observer)
    requires |it.table| == 256
    ensures ObservedStep(it.others, it.ranked, it.table, code, policy.maxMemoryBytes, gadgets, m, o)
         == (TableStep(it.others, it.ranked, it.table, code, m), Observe(policy, gadgets, StepTrace(it, code, m), o))
  {
    if m.halt.None? {
      var t := StepTrace(it, code, m);
      var once := OnEvent(policy, gadgets, t[0], o);
      assert t[1..] == [t[1]] && t[1..][1..] == [];
      assert Observe(policy, gadgets, t, o) == Observe(policy, gadgets, [t[1]], once);
      assert Observe(policy, gadgets, [t[1]], once)
             == Observe(policy, gadgets, [], OnEvent(policy, gadgets, t[1], once));
    }
  }

  /** Running under the inspector is running and then watching the trace. */
  lemma {:induction false} LoopObserved<R>(it: Interp<R>, code: Bytes, policy: ExecutionPolicy, gadgets: bool, n: nat,
                                           m: Machine<R>, o: Observer)
    requires |it.table| == 256
    ensures ObservedRun(it.others, it.ranked, it.table, code, policy.maxMemoryBytes, gadgets, n, m, o)
         == (LoopRun(it, code, n, m), Observe(policy, gadgets, LoopTrace(it, code, n, m), o))
    decreases n
  {
    if n > 0 {
      var next, first := TableStep(it.others, it.ranked, it.table, code, m), StepTrace(it, code, m);
      StepObserved(it, code, policy, gadgets, m, o);
      LoopObserved(it, code, policy, gadgets, n - 1, next, Observe(policy, gadgets, first, o));
      ObserveAppend(policy, gadgets, first, LoopTrace(it, code, n - 1, next), o);
    }
  }

  lemma {:induction false} LoopHaltedStays<R>(it: Interp<R>, code: Bytes, n: nat, m: Machine<R>)
    requires |it.table| == 256 && m.halt.Some?
    ensures LoopRun(it, code, n, m) == m && LoopTrace(it, code, n, m) == []
    decreases n
  {
    if n > 0 {
      LoopHaltedStays(it, code, n - 1, m);
    }
  }

  /** Once halted, more turns change neither the machine nor the trace. */
  lemma {:induction false} LoopHaltedFinal<R>(it: Interp<R>, code: Bytes, j: nat, k: nat, m: Machine<R>)
    requires |it.table| == 256 && j <= k && LoopRun(it, code, j, m).halt.Some?
    ensures LoopRun(it, code, k, m) == LoopRun(it, code, j, m) && LoopTrace(it, code, k, m) == LoopTrace(it, code, j, m)
    decreases j
  {
    if j == 0 {
      LoopHaltedStays(it, code, k, m);
    } else {
      LoopHaltedFinal(it, code, j - 1, k - 1, TableStep(it.others, it.ranked, it.table, code, m));
    }
  }

  /** How an instruction loop ends, if it does. */
  ghost function FrameEnd<R>(it: Interp<R>, code: Bytes, m: Machine<R>): Option<(Machine<R>, seq<Event>)>
    requires |it.table| == 256
  {
    if exists n: nat :: LoopRun(it, code, n, m).halt.Some?
    then
      var n: nat :| LoopRun(it, code, n, m).halt.Some?;
      Some((LoopRun(it, code, n, m), LoopTrace(it, code, n, m)))
    else None
  }

  lemma FrameEndIs<R>(it: Interp<R>, code: Bytes, m: Machine<R>, n: nat)
    requires |it.table| == 256 && LoopRun(it, code, n, m).halt.Some?
    ensures FrameEnd(it, code, m) == Some((LoopRun(it, code, n, m), LoopTrace(it, code, n, m)))
  {
    var k: nat :| LoopRun(it, code, k, m).halt.Some?
        && FrameEnd(it, code, m) == Some((LoopRun(it, code, k, m), LoopTrace(it, code, k, m)));
    if k <= n {
      LoopHaltedFinal(it, code, k, n, m);
    } else {
      LoopHaltedFinal(it, code, n, k, m);
    }
  }

  /** The production interpreter next to the reference interpreter over the same opcodes. */
  ghost predicate Pairing<R>(fast: Interp<R>, slow: Interp<R>)
  {
    && fast.others == slow.others && fast.ranked == slow.ranked && |fast.table| == 256 && |slow.table| == 256
    && Tables(fast.others, fast.ranked, slow.table, fast.table)
  }

  lemma {:induction false} PlainLoopIsReference<R>(it: Interp<R>, code: Bytes, n: nat, m: Machine<R>)
    requires |it.table| == 256 && IsReferenceTable(it.others, it.table)
    ensures LoopRun(it, code, n, m) == RefRun(it.others, code, n, m)
    decreases n
  {
    if n > 0 {
      ReferenceTableSteps(it.others, it.ranked, it.table, code, m);
      PlainLoopIsReference(it, code, n - 1, RefStep(it.others, code, m));
    }
  }

  lemma FramesHaltTogether<R>(fast: Interp<R>, slow: Interp<R>, code: Bytes, m: Machine<R>)
    requires Pairing(fast, slow)
    ensures FrameEnd(fast, code, m).Some? <==> FrameEnd(slow, code, m).Some?
  {
    if n: nat :| LoopRun(fast, code, n, m).halt.Some? {
      var k := RunSimulates(fast.others, fast.ranked, fast.table, code, n, m);
      PlainLoopIsReference(slow, code, k, m);
      assert LoopRun(slow, code, k, m).halt.Some?;
    }
    if n: nat :| LoopRun(slow, code, n, m).halt.Some? {
      PlainLoopIsReference(slow, code, n, m);
      ReferenceHaltReached(fast.others, fast.ranked, fast.table, code, n, m);
      assert LoopRun(fast, code, n, m).halt.Some?;
    }
  }

  lemma FrameObservedAlike<R(!new)>(host: bool, fast: Interp<R>, slow: Interp<R>, code: Bytes, m: Machine<R>, n: nat,
                                    policy: ExecutionPolicy, o: Observer, r: Observer)
    requires Pairing(fast, slow) && LoopRun(fast, code, n, m).halt.Some? && SameRecord(host, o, r)
             && FrameEnd(slow, code, m).Some?
    ensures FrameEnd(slow, code, m).value.0 == LoopRun(fast, code, n, m)
    ensures SameRecord(host, Observe(policy, host, LoopTrace(fast, code, n, m), o),
                       Observe(policy, false, FrameEnd(slow, code, m).value.1, r))
  {
    var k := ObservationPreserved(fast.others, fast.ranked, slow.table, fast.table, code, policy.maxMemoryBytes, host,
                                  n, m, o, r);
    LoopObserved(fast, code, policy, host, n, m, o);
    LoopObserved(slow, code, policy, false, k, m, r);
    FrameEndIs(slow, code, m, k);
  }

  /** A frame ends the same way under both interpreters, and the inspector cannot tell which one ran it. */
  lemma FramesAlike<R(!new)>(host: bool, fast: Interp<R>, slow: Interp<R>, code: Bytes, m: Machine<R>)
    requires Pairing(fast, slow)
    ensures FrameEnd(fast, code, m).Some? <==> FrameEnd(slow, code, m).Some?
    ensures FrameEnd(fast, code, m).Some? ==>
      var a, b := FrameEnd(fast, code, m).value, FrameEnd(slow, code, m).value;
      a.0 == b.0 && TracesAgree(host, a.1, b.1)
  {
    FramesHaltTogether(fast, slow, code, m);
    if FrameEnd(fast, code, m).Some? {
      var n: nat :| LoopRun(fast, code, n, m).halt.Some?;
      FrameEndIs(fast, code, m, n);
      FrameObservedAlike(host, fast, slow, code, m, n, UNRESTRICTED, NEW_OBSERVER, NEW_OBSERVER);
      forall policy, o, r | SameRecord(host, o, r)
        ensures SameRecord(host, Observe(policy, host, LoopTrace(fast, code, n, m), o),
                           Observe(policy, false, FrameEnd(slow, code, m).value.1, r))
      {
        FrameObservedAlike(host, fast, slow, code, m, n, policy, o, r);
      }
    }
  }

  // ----- Whole transactions -----

  /** Put a trace in front of a run. */
  function Before(trace: seq<Event>, run: Option<TxRun>): Option<TxRun>
  {
    match run
    case Some(Ran(t, c, g, s)) => Some(Ran(trace + t, c, g, s))
    case _ => run
  }

  /** A transaction followed for at most n actions; the database does not change before the commit. */
  ghost function RunFor<S, R>(evm: S -> Action<S, R>, it: Interp<R>, p: Platform, db: Db, s: S, n: nat): Option<TxRun>
    requires |it.table| == 256
    decreases n
  {
    if n == 0 then None
    else
      match evm(s)
      case Ask(q, k) => RunFor(evm, it, p, db, k(AnswerTo(p, db, q)), n - 1)
      case Cross(b, next) => Before([ToEvent(b)], RunFor(evm, it, p, db, next, n - 1))
      case RunFrame(code, m, resume) =>
        var end := FrameEnd(it, code, m);
        if end.None? then None else Before(end.value.1, RunFor(evm, it, p, db, resume(end.value.0), n - 1))
      case Finished(changes, gas, success) => Some(Ran([], changes, gas, success))
      case Aborted(error) => Some(Failed(error))
  }

  lemma {:induction false} LongerRunSame<S, R>(evm: S -> Action<S, R>, it: Interp<R>, p: Platform, db: Db, s: S, n: nat,
                                               k: nat)
    requires |it.table| == 256 && n <= k && RunFor(evm, it, p, db, s, n).Some?
    ensures RunFor(evm, it, p, db, s, k) == RunFor(evm, it, p, db, s, n)
    decreases n
  {
    match evm(s)
    case Ask(q, cont) => LongerRunSame(evm, it, p, db, cont(AnswerTo(p, db, q)), n - 1, k - 1);
    case Cross(b, next) => LongerRunSame(evm, it, p, db, next, n - 1, k - 1);
    case RunFrame(code, m, resume) =>
      if FrameEnd(it, code, m).Some? {
        LongerRunSame(evm, it, p, db, resume(FrameEnd(it, code, m).value.0), n - 1, k - 1);
      }
    case Finished(_, _, _) =>
    case Aborted(_) =>
  }

  const NEVER_ENDS := -1

  /** The result of a transaction; one that never ends counts as failed. */
  ghost function Execute<S, R>(evm: S -> Action<S, R>, it: Interp<R>, p: Platform, db: Db, s: S): TxRun
    requires |it.table| == 256
  {
    if exists n: nat :: RunFor(evm, it, p, db, s, n).Some?
    then
      var n: nat :| RunFor(evm, it, p, db, s, n).Some?;
      RunFor(evm, it, p, db, s, n).value
    else Failed(NEVER_ENDS)
  }

  lemma ExecuteIs<S, R>(evm: S -> Action<S, R>, it: Interp<R>, p: Platform, db: Db, s: S, n: nat)
    requires |it.table| == 256 && RunFor(evm, it, p, db, s, n).Some?
    ensures Execute(evm, it, p, db, s) == RunFor(evm, it, p, db, s, n).value
  {
    var k: nat :| RunFor(evm, it, p, db, s, k).Some?
        && Execute(evm, it, p, db, s) == RunFor(evm, it, p, db, s, k).value;
    if k <= n {
      LongerRunSame(evm, it, p, db, s, k, n);
    } else {
      LongerRunSame(evm, it, p, db, s, n, k);
    }
  }

  ghost predicate SameProgress(host: bool, fast: Option<TxRun>, slow: Option<TxRun>)
  {
    fast.Some? == slow.Some? && (fast.Some? ==> SameRun(host, fast.value, slow.value))
  }

  lemma BoundaryAlike(host: bool, b: Boundary)
    ensures TracesAgree(host, [ToEvent(b)], [ToEvent(b)])
  {
    var e := ToEvent(b);
    forall policy, o, r | SameRecord(host, o, r)
      ensures SameRecord(host, Observe(policy, host, [e], o), Observe(policy, false, [e], r))
    {
      assert Observe(policy, host, [e], o) == Observe(policy, host, [], OnEvent(policy, host, e, o));
      assert Observe(policy, false, [e], r) == Observe(policy, false, [], OnEvent(policy, false, e, r));
    }
  }

  lemma TracesCompose(host: bool, a: seq<Event>, b: seq<Event>, c: seq<Event>, d: seq<Event>)
    requires TracesAgree(host, a, b) && TracesAgree(host, c, d)
    ensures TracesAgree(host, a + c, b + d)
  {
    forall policy, o, r | SameRecord(host, o, r)
      ensures SameRecord(host, Observe(policy, host, a + c, o), Observe(policy, false, b + d, r))
    {
      ObserveAppend(policy, host, a, c, o);
      ObserveAppend(policy, false, b, d, r);
    }
  }

  lemma BeforeAlike(host: bool, a: seq<Event>, b: seq<Event>, fast: Option<TxRun>, slow: Option<TxRun>)
    requires TracesAgree(host, a, b) && SameProgress(host, fast, slow)
    ensures SameProgress(host, Before(a, fast), Before(b, slow))
  {
    if fast.Some? && fast.value.Ran? {
      TracesCompose(host, a, b, fast.value.trace, slow.value.trace);
    }
  }

  lemma NoTraceAlike(host: bool)
    ensures TracesAgree(host, [], [])
  {
  }

  /** Action by action the two executions stay together. */
  lemma {:induction false} RunsAlike<S, R(!new)>(host: bool, evm: S -> Action<S, R>, fast: Interp<R>, slow: Interp<R>,
                                                 p: Platform, db: Db, plain: Db, s: S, n: nat)
    requires Pairing(fast, slow) && Shadows(p, db, plain)
    ensures SameProgress(host, RunFor(evm, fast, p, db, s, n), RunFor(evm, slow, p, plain, s, n))
    decreases n
  {
    if n > 0 {
      match evm(s)
      case Ask(q, k) =>
        AnswersAlike(p, db, plain, q);
        RunsAlike(host, evm, fast, slow, p, db, plain, k(AnswerTo(p, db, q)), n - 1);
      case Cross(b, next) =>
        RunsAlike(host, evm, fast, slow, p, db, plain, next, n - 1);
        BoundaryAlike(host, b);
        BeforeAlike(host, [ToEvent(b)], [ToEvent(b)], RunFor(evm, fast, p, db, next, n - 1),
                    RunFor(evm, slow, p, plain, next, n - 1));
      case RunFrame(code, m, resume) =>
        FramesAlike(host, fast, slow, code, m);
        var a, b := FrameEnd(fast, code, m), FrameEnd(slow, code, m);
        if a.Some? {
          RunsAlike(host, evm, fast, slow, p, db, plain, resume(a.value.0), n - 1);
          BeforeAlike(host, a.value.1, b.value.1, RunFor(evm, fast, p, db, resume(a.value.0), n - 1),
                      RunFor(evm, slow, p, plain, resume(b.value.0), n - 1));
        }
      case Finished(_, _, _) => NoTraceAlike(host);
      case Aborted(_) =>
    }
  }

  lemma ExecutionsAlike<S, R(!new)>(host: bool, evm: S -> Action<S, R>, fast: Interp<R>, slow: Interp<R>, p: Platform,
                                    db: Db, plain: Db, s: S)
    requires Pairing(fast, slow) && Shadows(p, db, plain)
    ensures SameRun(host, Execute(evm, fast, p, db, s), Execute(evm, slow, p, plain, s))
  {
    if n: nat :| RunFor(evm, fast, p, db, s, n).Some? {
      RunsAlike(host, evm, fast, slow, p, db, plain, s, n);
      ExecuteIs(evm, fast, p, db, s, n);
      ExecuteIs(evm, slow, p, plain, s, n);
    } else if n: nat :| RunFor(evm, slow, p, plain, s, n).Some? {
      RunsAlike(host, evm, fast, slow, p, db, plain, s, n);
      assert false;
    }
  }

  /** The world executes transactions as such programs, choosing the interpreter by the gadget flag. */
  ghost predicate ExecutesPrograms<S(!new), R(!new)>(w: World, enter: (Env, TxEnv) -> S, evm: S -> Action<S, R>,
                                                     fast: Interp<R>, slow: Interp<R>)
    requires |fast.table| == 256 && |slow.table| == 256
  {
    forall gadgets, db, env, tx {:trigger w.exec(gadgets, db, env, tx)} ::
      w.exec(gadgets, db, env, tx) == Execute(evm, if gadgets then fast else slow, w.p, db, enter(env, tx))
  }

  /** Whatever program the EVM is, the fused interpreter with the cache and the reference interpreter without it
      agree. */
  lemma FusedExecutionIsTransparent<S(!new), R(!new)>(w: World, enter: (Env, TxEnv) -> S, evm: S -> Action<S, R>,
                                                      fast: Interp<R>, slow: Interp<R>)
    requires Pairing(fast, slow) && ExecutesPrograms(w, enter, evm, fast, slow)
    ensures Transparent(w)
  {
    forall db, plain, env, tx | Shadows(w.p, db, plain)
      ensures SameRun(w.host, w.exec(true, db, env, tx), w.exec(false, plain, env, tx))
    {
      ExecutionsAlike(w.host, evm, fast, slow, w.p, db, plain, enter(env, tx));
    }
  }
}
