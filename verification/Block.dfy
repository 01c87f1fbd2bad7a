/** Execution of one block on a carried state. */
module Block {
  import opened Bytes
  import opened State
  import opened FrameObserver
  import opened Policy
  import opened Inspector
  import opened SparseRoot
  import opened BlockData

  /** A decoded transaction; `body` is what no check here looks at. */
  datatype TxEnv = TxEnv(caller: Address, kind: TxKind, data: Bytes, body: Bytes)

  /** What REVM reports for one transaction: every inspector callback in order and the change set, or an error. */
  datatype TxRun = Ran(trace: seq<Event>, changes: Changes, gas: U64, success: bool) | Failed(error: int)

  /** Foreign functions of block execution, and whether this is a host build; `exec` takes the gadget flag, the state,
      the environment and the transaction. */
  datatype World = World(
    p: Platform,
    tags: Tags,
    host: bool,
    decodeTx: (Bytes, U64) -> Result<TxEnv, int>,
    exec: (bool, Db, Env, TxEnv) -> TxRun,
    txCommitment: seq<Bytes> -> B256,
    envHash: Env -> B256)

  datatype StfError =
    | TxDecode(code: int) | DecodedMismatch | HistoryInvalid | UnknownCommitment
    | PreRootMismatch(expected: B256, computed: B256) | PolicyViolated(violation: Violation) | TxExecution(code: int)
    | AccessViolated(error: DbError) | BlockGasLimit(used: nat) | InvalidBatch(code: int) | CompactWitness
    | ConstructorRejected | InstallRejected | Settlement(code: int) | PostStateRejected | ColdLinkRejected

  // ----- The block-hash history -----

  const HISTORY: nat := 256

  ghost predicate HistoryOk(number: U64, history: seq<(U64, B256)>)
  {
    && |history| <= HISTORY
    && (forall i :: 0 <= i < |history| ==> number - HISTORY <= history[i].0 < number)
    && (forall i, j :: 0 <= i < j < |history| ==> history[i].0 < history[j].0)
  }

  function HistoryMap(history: seq<(U64, B256)>, n: nat): map<U64, B256>
    requires n <= |history|
  {
    if n == 0 then map[] else HistoryMap(history, n - 1)[history[n - 1].0 := history[n - 1].1]
  }

  method InstallBlockHashes(db: Db, number: U64, history: seq<(U64, B256)>) returns (r: Option<Db>)
    ensures r.Some? <==> HistoryOk(number, history)
    ensures r.Some? ==> r.value == db.(blockHashes := HistoryMap(history, |history|))
  {
    if |history| > HISTORY {
      return None;
    }
    var oldest := if number < HISTORY then 0 else number - HISTORY;
    var hashes: map<U64, B256> := map[];
    var i := 0;
    while i < |history|
      invariant 0 <= i <= |history| && hashes == HistoryMap(history, i)
      invariant forall j :: 0 <= j < i ==> number - HISTORY <= history[j].0 < number
      invariant forall j, k :: 0 <= j < k < i ==> history[j].0 < history[k].0
    {
      var entry := history[i];
      if entry.0 < oldest || entry.0 >= number {
        return None;
      }
      if i > 0 && history[i - 1].0 >= entry.0 {
        return None;
      }
      hashes := hashes[entry.0 := entry.1];
      i := i + 1;
    }
    r := Some(db.(blockHashes := hashes));
  }

  lemma {:induction false} HistoryMapAt(history: seq<(U64, B256)>, n: nat, k: U64)
    requires n <= |history| && forall i, j :: 0 <= i < j < n ==> history[i].0 < history[j].0
    ensures k in HistoryMap(history, n) <==> exists i :: 0 <= i < n && history[i].0 == k
    ensures forall i :: 0 <= i < n && history[i].0 == k ==>
              k in HistoryMap(history, n) && HistoryMap(history, n)[k] == history[i].1
  {
    if n > 0 {
      HistoryMapAt(history, n - 1, k);
    }
  }

  /** BLOCKHASH serves exactly the admitted entries, all among the last 256 heights, and zero elsewhere. */
  lemma HistoryServed(db: Db, number: U64, history: seq<(U64, B256)>, k: U64)
    requires HistoryOk(number, history)
    ensures var served := BlockHash(db.(blockHashes := HistoryMap(history, |history|)), k);
            && (forall i :: 0 <= i < |history| && history[i].0 == k ==> served == history[i].1)
            && ((forall i :: 0 <= i < |history| ==> history[i].0 != k) ==> served == Zeros(32))
            && (k < number - HISTORY || k >= number ==> served == Zeros(32))
  {
    HistoryMapAt(history, |history|, k);
  }

  // ----- One transaction -----

  /** Generic execution without a preset. */
  const UNRESTRICTED := ExecutionPolicy(false, {}, map[], [], [], [], [], false, true, true, TWO_64 - 1, TWO_64 - 1, {})

  /** What the loop carries from one transaction to the next. */
  datatype BlockState = BlockState(db: Db, gas: nat, observer: Observer, outcomes: seq<(B256, bool)>)

  datatype TxDone = TxDone(db: Db, gas: nat, observer: Observer, outcome: (B256, bool))

  function After(s: BlockState, done: TxDone): BlockState
  {
    BlockState(done.db, done.gas, done.observer, s.outcomes + [done.outcome])
  }

  function Decode(w: World, env: Env, raw: Bytes, decoded: Option<TxEnv>): Result<TxEnv, int>
  {
    if decoded.Some? then Ok(decoded.value) else w.decodeTx(raw, env.chainId)
  }

  /** Decode, check the entry, run under the inspector, commit, then look at both latches and the gas budget. */
  function TxStep(w: World, policy: ExecutionPolicy, gadgets: bool, env: Env, raw: Bytes, decoded: Option<TxEnv>,
                  s: BlockState): Result<TxDone, StfError>
    requires ValidPlatform(w.p)
  {
    var tx := Decode(w, env, raw, decoded);
    if tx.Err? then Err(TxDecode(tx.error))
    else
      var entry := EntryViolation(policy, tx.value.caller, tx.value.kind, tx.value.data);
      if entry.Some? then Err(PolicyViolated(entry.value))
      else
        var run := w.exec(gadgets, s.db, env, tx.value);
        if run.Failed? then Err(TxExecution(run.error))
        else
          var observer := Observe(policy, gadgets && w.host, run.trace, s.observer.(violation := None));
          var db := Commit(w.p, s.db, run.changes);
          if observer.violation.Some? then Err(PolicyViolated(observer.violation.value))
          else if db.violation.Some? then Err(AccessViolated(db.violation.value))
          else if s.gas + run.gas >= TWO_64 || s.gas + run.gas > env.gasLimit then Err(BlockGasLimit(s.gas + run.gas))
          else Ok(TxDone(db, s.gas + run.gas, observer, (w.p.keccak(raw), run.success)))
  }

  /** The loop's state after one more transaction, or its error. */
  function Extend(s: BlockState, step: Result<TxDone, StfError>): Result<BlockState, StfError>
  {
    if step.Err? then Err(step.error) else Ok(After(s, step.value))
  }

  datatype BlockInput = BlockInput(roomId: U64, number: U64, prevRoot: B256, rawTxs: seq<Bytes>, env: Env,
                                   history: seq<(U64, B256)>)

  function DecodedAt(decoded: Option<seq<TxEnv>>, i: nat): Option<TxEnv>
  {
    if decoded.Some? && i < |decoded.value| then Some(decoded.value[i]) else None
  }

  /** The first n transactions of a block. */
  function RunTxs(w: World, policy: ExecutionPolicy, gadgets: bool, input: BlockInput, decoded: Option<seq<TxEnv>>,
                  db: Db, n: nat): Result<BlockState, StfError>
    requires ValidPlatform(w.p) && n <= |input.rawTxs|
  {
    if n == 0 then Ok(BlockState(db, 0, NEW_OBSERVER, []))
    else
      var before := RunTxs(w, policy, gadgets, input, decoded, db, n - 1);
      if before.Err? then before
      else
        var step := TxStep(w, policy, gadgets, input.env, input.rawTxs[n - 1], DecodedAt(decoded, n - 1), before.value);
        Extend(before.value, step)
  }

  lemma RunOneMore(w: World, policy: ExecutionPolicy, gadgets: bool, input: BlockInput, decoded: Option<seq<TxEnv>>,
                   db: Db, n: nat, before: BlockState, step: Result<TxDone, StfError>)
    requires ValidPlatform(w.p) && 0 < n <= |input.rawTxs|
    requires RunTxs(w, policy, gadgets, input, decoded, db, n - 1) == Ok(before)
    requires step == TxStep(w, policy, gadgets, input.env, input.rawTxs[n - 1], DecodedAt(decoded, n - 1), before)
    ensures RunTxs(w, policy, gadgets, input, decoded, db, n) == Extend(before, step)
  {
  }

  // ----- One block -----

  datatype BlockJournal = BlockJournal(roomId: U64, number: U64, prevRoot: B256, postRoot: B256, txCommitment: B256,
                                       envHash: B256)

  datatype BlockOutcome = BlockOutcome(journal: BlockJournal, gasUsed: nat, work: Work, state: Db,
                                       transactions: seq<(B256, bool)>)

  function RoomRoot(w: World, db: Db, mode: byte): Option<B256>
  {
    if mode == 0 then Some(StateRoot(w.p, db))
    else if mode == 1 then Some(SparseStateRoot(w.p, w.tags, db.accounts))
    else None
  }

  function EffectivePolicy(policy: Option<ExecutionPolicy>): ExecutionPolicy
  {
    if policy.Some? then policy.value else UNRESTRICTED
  }

  /** How a block is to be executed. */
  datatype Mode = Mode(policy: Option<ExecutionPolicy>, verifyRoot: bool, commitment: byte, gadgets: bool,
                       decoded: Option<seq<TxEnv>>)

  function Finish(w: World, input: BlockInput, m: Mode, s: BlockState): Result<BlockOutcome, StfError>
  {
    var root := RoomRoot(w, s.db, m.commitment);
    if root.None? then Err(UnknownCommitment)
    else Ok(BlockOutcome(BlockJournal(input.roomId, input.number, input.prevRoot, root.value,
                                      w.txCommitment(input.rawTxs), w.envHash(input.env)),
                         s.gas, s.observer.work, s.db, s.outcomes))
  }

  function Conclude(w: World, input: BlockInput, m: Mode,
                    ran: Result<BlockState, StfError>): Result<BlockOutcome, StfError>
  {
    if ran.Err? then Err(ran.error) else Finish(w, input, m, ran.value)
  }

  ghost function ExecuteBlock(w: World, input: BlockInput, m: Mode, db: Db): Result<BlockOutcome, StfError>
    requires ValidPlatform(w.p)
  {
    if m.decoded.Some? && |m.decoded.value| != |input.rawTxs| then Err(DecodedMismatch)
    else if !HistoryOk(input.env.number, input.history) then Err(HistoryInvalid)
    else
      var start := db.(blockHashes := HistoryMap(input.history, |input.history|));
      var root := RoomRoot(w, start, m.commitment);
      if m.verifyRoot && root.None? then Err(UnknownCommitment)
      else if m.verifyRoot && root.value != input.prevRoot then Err(PreRootMismatch(input.prevRoot, root.value))
      else
        Conclude(w, input, m, RunTxs(w, EffectivePolicy(m.policy), m.gadgets, input, m.decoded, start, |input.rawTxs|))
  }

  lemma {:induction false} FailureStays(w: World, policy: ExecutionPolicy, gadgets: bool, input: BlockInput,
                                        decoded: Option<seq<TxEnv>>, db: Db, i: nat, n: nat)
    requires ValidPlatform(w.p) && i <= n <= |input.rawTxs| && RunTxs(w, policy, gadgets, input, decoded, db, i).Err?
    ensures RunTxs(w, policy, gadgets, input, decoded, db, n) == RunTxs(w, policy, gadgets, input, decoded, db, i)
  {
    if i < n {
      FailureStays(w, policy, gadgets, input, decoded, db, i, n - 1);
    }
  }

  /** One turn of the transaction loop, driving the inspector object. */
  method RunTransaction(w: World, inspector: CertifiedInspector, env: Env, raw: Bytes, decoded: Option<TxEnv>,
                        s: BlockState)
    returns (r: Result<TxDone, StfError>)
    requires ValidPlatform(w.p) && s.observer == inspector.View() && inspector.host == w.host
    modifies inspector
    ensures r == TxStep(w, inspector.policy, inspector.gadgets, env, raw, decoded, s)
    ensures r.Ok? ==> r.value.observer == inspector.View()
  {
    var tx := if decoded.Some? then Ok(decoded.value) else w.decodeTx(raw, env.chainId);
    if tx.Err? {
      return Err(TxDecode(tx.error));
    }
    inspector.Reset();
    var entry := inspector.ValidateTransactionEntry(tx.value.caller, tx.value.kind, tx.value.data);
    if entry.Some? {
      return Err(PolicyViolated(entry.value));
    }
    var run := w.exec(inspector.gadgets, s.db, env, tx.value);
    if run.Failed? {
      return Err(TxExecution(run.error));
    }
    inspector.Watch(run.trace);
    var next := Commit(w.p, s.db, run.changes);
    if inspector.violation.Some? {
      return Err(PolicyViolated(inspector.violation.value));
    }
    if next.violation.Some? {
      return Err(AccessViolated(next.violation.value));
    }
    var used := s.gas + run.gas;
    if used >= TWO_64 || used > env.gasLimit {
      return Err(BlockGasLimit(used));
    }
    r := Ok(TxDone(next, used, inspector.View(), (w.p.keccak(raw), run.success)));
  }

  lemma RunNext(w: World, policy: ExecutionPolicy, gadgets: bool, input: BlockInput, decoded: Option<seq<TxEnv>>,
                db: Db, i: nat, s: BlockState, step: Result<TxDone, StfError>)
    requires ValidPlatform(w.p) && i < |input.rawTxs| && RunTxs(w, policy, gadgets, input, decoded, db, i) == Ok(s)
    requires step == TxStep(w, policy, gadgets, input.env, input.rawTxs[i], DecodedAt(decoded, i), s)
    ensures step.Ok? ==> RunTxs(w, policy, gadgets, input, decoded, db, i + 1) == Ok(After(s, step.value))
    ensures step.Err? ==> RunTxs(w, policy, gadgets, input, decoded, db, |input.rawTxs|) == Err(step.error)
  {
    if step.Err? {
      FailureStays(w, policy, gadgets, input, decoded, db, i + 1, |input.rawTxs|);
    }
  }

  /** The transaction loop computes what the recursive account says. */
  method RunTransactions(w: World, policy: ExecutionPolicy, gadgets: bool, input: BlockInput,
                         decoded: Option<seq<TxEnv>>, db: Db)
    returns (r: Result<BlockState, StfError>)
    requires ValidPlatform(w.p)
    ensures r == RunTxs(w, policy, gadgets, input, decoded, db, |input.rawTxs|)
  {
    var inspector := new CertifiedInspector(policy, gadgets, w.host);
    var s := BlockState(db, 0, NEW_OBSERVER, []);
    var i := 0;
    while i < |input.rawTxs|
      invariant 0 <= i <= |input.rawTxs| && inspector.policy == policy && inspector.gadgets == gadgets
                && inspector.host == w.host
      invariant s.observer == inspector.View()
      invariant RunTxs(w, policy, gadgets, input, decoded, db, i) == Ok(s)
    {
      ghost var before := s;
      var step := RunTransaction(w, inspector, input.env, input.rawTxs[i], DecodedAt(decoded, i), s);
      RunNext(w, policy, gadgets, input, decoded, db, i, before, step);
      if step.Err? {
        return Err(step.error);
      }
      s := After(s, step.value);
      i := i + 1;
    }
    r := Ok(s);
  }

  method ExecuteBlockOnState(w: World, input: BlockInput, m: Mode, db: Db) returns (r: Result<BlockOutcome, StfError>)
    requires ValidPlatform(w.p)
    ensures r == ExecuteBlock(w, input, m, db)
  {
    if m.decoded.Some? && |m.decoded.value| != |input.rawTxs| {
      return Err(DecodedMismatch);
    }
    var installed := InstallBlockHashes(db, input.env.number, input.history);
    if installed.None? {
      return Err(HistoryInvalid);
    }
    if m.verifyRoot {
      var computed := RoomRoot(w, installed.value, m.commitment);
      if computed.None? {
        return Err(UnknownCommitment);
      }
      if computed.value != input.prevRoot {
        return Err(PreRootMismatch(input.prevRoot, computed.value));
      }
    }
    var ran := RunTransactions(w, EffectivePolicy(m.policy), m.gadgets, input, m.decoded, installed.value);
    r := Conclude(w, input, m, ran);
  }

  // ----- What an accepted block establishes -----

  /** The state just before transaction i. */
  function StateBefore(w: World, policy: ExecutionPolicy, gadgets: bool, input: BlockInput, decoded: Option<seq<TxEnv>>,
                       db: Db, i: nat): Db
    requires ValidPlatform(w.p) && i <= |input.rawTxs|
  {
    var before := RunTxs(w, policy, gadgets, input, decoded, db, i);
    if before.Ok? then before.value.db else db
  }

  /** Transaction i decodes, its root call is allowed, and every callback of its run was inside the envelope. */
  ghost predicate TxAllowed(w: World, policy: ExecutionPolicy, gadgets: bool, input: BlockInput,
                            decoded: Option<seq<TxEnv>>, db: Db, i: nat)
    requires ValidPlatform(w.p) && i < |input.rawTxs|
  {
    var tx := Decode(w, input.env, input.rawTxs[i], DecodedAt(decoded, i));
    tx.Ok? &&
    var run := w.exec(gadgets, StateBefore(w, policy, gadgets, input, decoded, db, i), input.env, tx.value);
    && run.Ran?
    && EntryAllowed(policy, tx.value.caller, tx.value.kind, tx.value.data)
    && forall k :: 0 <= k < |run.trace| ==> EventAllowed(policy, run.trace[k])
  }

  lemma StepAllowed(w: World, policy: ExecutionPolicy, gadgets: bool, env: Env, raw: Bytes, decoded: Option<TxEnv>,
                    s: BlockState)
    requires ValidPlatform(w.p) && TxStep(w, policy, gadgets, env, raw, decoded, s).Ok?
    ensures var tx := Decode(w, env, raw, decoded);
            && tx.Ok? && EntryAllowed(policy, tx.value.caller, tx.value.kind, tx.value.data)
            && var run := w.exec(gadgets, s.db, env, tx.value);
               run.Ran? && forall k :: 0 <= k < |run.trace| ==> EventAllowed(policy, run.trace[k])
  {
    var tx := Decode(w, env, raw, decoded);
    var run := w.exec(gadgets, s.db, env, tx.value);
    EntryExact(policy, tx.value.caller, tx.value.kind, tx.value.data);
    ObserveExact(policy, gadgets && w.host, run.trace, s.observer.(violation := None));
  }

  /** Every transaction of an accepted prefix stayed inside the envelope. */
  lemma AcceptedTxs(w: World, policy: ExecutionPolicy, gadgets: bool, input: BlockInput, decoded: Option<seq<TxEnv>>,
                    db: Db, n: nat, i: nat)
    requires ValidPlatform(w.p) && i < n <= |input.rawTxs| && RunTxs(w, policy, gadgets, input, decoded, db, n).Ok?
    ensures TxAllowed(w, policy, gadgets, input, decoded, db, i)
  {
    if RunTxs(w, policy, gadgets, input, decoded, db, i + 1).Err? {
      FailureStays(w, policy, gadgets, input, decoded, db, i + 1, n);
    }
    var before := RunTxs(w, policy, gadgets, input, decoded, db, i);
    assert before.Ok? && TxStep(w, policy, gadgets, input.env, input.rawTxs[i], DecodedAt(decoded, i),
                                before.value).Ok?;
    StepAllowed(w, policy, gadgets, input.env, input.rawTxs[i], DecodedAt(decoded, i), before.value);
  }
}
