/** Laws of block execution: the root check is redundant on a carried root, the fast interpreter and cache change
    nothing, and certified blocks keep the envelope and create no code. */
module BlockLaws {
  import opened Bytes
  import opened State
  import opened StateLaws
  import opened FrameObserver
  import opened Policy
  import opened Inspector
  import opened Block
  import opened BlockData
  import FromV5

  // ----- The root check -----

  lemma RootIgnoresHistory(w: World, db: Db, hashes: map<U64, B256>, mode: byte)
    ensures RoomRoot(w, db.(blockHashes := hashes), mode) == RoomRoot(w, db, mode)
  {
    var other := db.(blockHashes := hashes);
    forall a | a in db.accounts
      ensures RootEntry(w.p, db, a) == RootEntry(w.p, other, a)
    {
    }
    assert (map a | a in db.accounts && !db.accounts[a].IsEmpty() :: RootEntry(w.p, db, a))
        == (map a | a in other.accounts && !other.accounts[a].IsEmpty() :: RootEntry(w.p, other, a));
  }

  /** When the carried root is the root of the carried state, checking it never changes the result. */
  lemma RootCheckRedundant(w: World, input: BlockInput, m: Mode, db: Db)
    requires ValidPlatform(w.p) && RoomRoot(w, db, m.commitment) == Some(input.prevRoot)
    ensures ExecuteBlock(w, input, m.(verifyRoot := true), db) == ExecuteBlock(w, input, m.(verifyRoot := false), db)
  {
    RootIgnoresHistory(w, db, HistoryMap(input.history, |input.history|), m.commitment);
  }

  /** A block hands on the root of the state it hands on. */
  lemma BlockCarriesRoot(w: World, input: BlockInput, m: Mode, db: Db)
    requires ValidPlatform(w.p) && ExecuteBlock(w, input, m, db).Ok?
    ensures var out := ExecuteBlock(w, input, m, db).value;
            RoomRoot(w, out.state, m.commitment) == Some(out.journal.postRoot) && out.journal.prevRoot == input.prevRoot
  {
  }

  /** The gas REVM reports for a transaction run from a state. */
  function GasOf(w: World, gadgets: bool, env: Env, raw: Bytes, decoded: Option<TxEnv>, db: Db): nat
  {
    var tx := Decode(w, env, raw, decoded);
    if tx.Err? then 0
    else
      var run := w.exec(gadgets, db, env, tx.value);
      if run.Ran? then run.gas else 0
  }

  lemma StepAccounted(w: World, policy: ExecutionPolicy, gadgets: bool, env: Env, raw: Bytes, decoded: Option<TxEnv>,
                      s: BlockState)
    requires ValidPlatform(w.p) && TxStep(w, policy, gadgets, env, raw, decoded, s).Ok?
    ensures var done := TxStep(w, policy, gadgets, env, raw, decoded, s).value;
            done.gas == s.gas + GasOf(w, gadgets, env, raw, decoded, s.db) <= env.gasLimit
            && done.outcome.0 == w.p.keccak(raw)
  {
  }

  /** The gas of the first n transactions, each from the state before it. */
  function RunGas(w: World, policy: ExecutionPolicy, gadgets: bool, input: BlockInput, decoded: Option<seq<TxEnv>>,
                  db: Db, n: nat): nat
    requires ValidPlatform(w.p) && n <= |input.rawTxs|
  {
    if n == 0 then 0
    else RunGas(w, policy, gadgets, input, decoded, db, n - 1)
         + GasOf(w, gadgets, input.env, input.rawTxs[n - 1], DecodedAt(decoded, n - 1),
                 StateBefore(w, policy, gadgets, input, decoded, db, n - 1))
  }

  /** Each of the first n outcomes carries its own transaction's hash. */
  ghost predicate OutcomesNamed(keccak: Hash, raws: seq<Bytes>, outcomes: seq<(B256, bool)>, n: nat)
  {
    |outcomes| == n <= |raws| && forall i :: 0 <= i < n ==> outcomes[i].0 == keccak(raws[i])
  }

  lemma NextOutcomeNamed(keccak: Hash, raws: seq<Bytes>, outcomes: seq<(B256, bool)>, next: (B256, bool), n: nat)
    requires n < |raws| && OutcomesNamed(keccak, raws, outcomes, n) && next.0 == keccak(raws[n])
    ensures OutcomesNamed(keccak, raws, outcomes + [next], n + 1)
  {
  }

  /** Accepted transactions: their gas adds up and stays within the block limit, and each is recorded under its own
      hash. */
  lemma {:induction false} TxsAccounted(w: World, policy: ExecutionPolicy, gadgets: bool, input: BlockInput,
                                        decoded: Option<seq<TxEnv>>, db: Db, n: nat)
    requires ValidPlatform(w.p) && n <= |input.rawTxs| && RunTxs(w, policy, gadgets, input, decoded, db, n).Ok?
    ensures var s := RunTxs(w, policy, gadgets, input, decoded, db, n).value;
            && s.gas == RunGas(w, policy, gadgets, input, decoded, db, n) && (n > 0 ==> s.gas <= input.env.gasLimit)
            && OutcomesNamed(w.p.keccak, input.rawTxs, s.outcomes, n)
  {
    if n > 0 {
      var before := RunTxs(w, policy, gadgets, input, decoded, db, n - 1);
      var raw, tx := input.rawTxs[n - 1], DecodedAt(decoded, n - 1);
      var step := TxStep(w, policy, gadgets, input.env, raw, tx, before.value);
      TxsAccounted(w, policy, gadgets, input, decoded, db, n - 1);
      StepAccounted(w, policy, gadgets, input.env, raw, tx, before.value);
      RunOneMore(w, policy, gadgets, input, decoded, db, n, before.value, step);
      NextOutcomeNamed(w.p.keccak, input.rawTxs, before.value.outcomes, step.value.outcome, n - 1);
    }
  }

  // ----- Production and reference execution -----

  /** The cached state and the plain state beneath it. */
  ghost predicate Shadows(p: Platform, db: Db, plain: Db)
  {
    CacheValid(p, db) && plain == ClearPrepared(db)
  }

  /** The inspector cannot tell the two traces apart, whatever the policy and whatever it recorded before. */
  ghost predicate TracesAgree(host: bool, fast: seq<Event>, slow: seq<Event>)
  {
    forall policy, o, r {:trigger Observe(policy, host, fast, o), Observe(policy, false, slow, r)} ::
      SameRecord(host, o, r) ==> SameRecord(host, Observe(policy, host, fast, o), Observe(policy, false, slow, r))
  }

  ghost predicate SameRun(host: bool, fast: TxRun, slow: TxRun)
  {
    match (fast, slow)
    case (Failed(e), Failed(f)) => e == f
    case (Ran(t, c, g, s), Ran(t', c', g', s')) => TracesAgree(host, t, t') && c == c' && g == g' && s == s'
    case _ => false
  }

  /** Fused execution over a cached state and reference execution over the plain state run every transaction alike. */
  ghost predicate Transparent(w: World)
  {
    forall db, plain, env, tx {:trigger w.exec(true, db, env, tx), w.exec(false, plain, env, tx)} ::
      Shadows(w.p, db, plain) ==> SameRun(w.host, w.exec(true, db, env, tx), w.exec(false, plain, env, tx))
  }

  lemma CommitShadows(p: Platform, db: Db, plain: Db, changes: Changes)
    requires ValidPlatform(p) && Shadows(p, db, plain)
    ensures Shadows(p, Commit(p, db, changes), Commit(p, plain, changes))
    ensures Commit(p, db, changes).violation == Commit(p, plain, changes).violation
  {
    CommitForgetsCache(p, db, changes, p.order(changes));
    CommitKeepsPreparedCode(p, db, changes, p.order(changes));
  }

  ghost predicate SameState(w: World, fast: BlockState, slow: BlockState)
  {
    && Shadows(w.p, fast.db, slow.db) && fast.gas == slow.gas && fast.outcomes == slow.outcomes
    && SameRecord(w.host, fast.observer, slow.observer)
  }

  ghost predicate SameDone(w: World, fast: Result<TxDone, StfError>, slow: Result<TxDone, StfError>)
  {
    match (fast, slow)
    case (Err(e), Err(f)) => e == f
    case (Ok(a), Ok(b)) =>
      Shadows(w.p, a.db, b.db) && a.gas == b.gas && SameRecord(w.host, a.observer, b.observer) && a.outcome == b.outcome
    case _ => false
  }

  lemma StepAlike(w: World, policy: ExecutionPolicy, env: Env, raw: Bytes, decoded: Option<TxEnv>, a: BlockState,
                  b: BlockState)
    requires ValidPlatform(w.p) && Transparent(w) && SameState(w, a, b)
    ensures SameDone(w, TxStep(w, policy, true, env, raw, decoded, a), TxStep(w, policy, false, env, raw, decoded, b))
  {
    var tx := Decode(w, env, raw, decoded);
    if tx.Ok? {
      var fast, slow := w.exec(true, a.db, env, tx.value), w.exec(false, b.db, env, tx.value);
      assert SameRun(w.host, fast, slow);
      if fast.Ran? {
        CommitShadows(w.p, a.db, b.db, fast.changes);
        var o, r := a.observer.(violation := None), b.observer.(violation := None);
        assert SameRecord(w.host, o, r);
        assert SameRecord(w.host, Observe(policy, w.host, fast.trace, o), Observe(policy, false, slow.trace, r));
      }
    }
  }

  ghost predicate SameTxs(w: World, fast: Result<BlockState, StfError>, slow: Result<BlockState, StfError>)
  {
    match (fast, slow)
    case (Err(e), Err(f)) => e == f
    case (Ok(a), Ok(b)) => SameState(w, a, b)
    case _ => false
  }

  lemma ExtendAlike(w: World, a: BlockState, b: BlockState, x: Result<TxDone, StfError>, y: Result<TxDone, StfError>)
    requires SameState(w, a, b) && SameDone(w, x, y)
    ensures SameTxs(w, Extend(a, x), Extend(b, y))
  {
  }

  lemma {:induction false} TxsAlike(w: World, policy: ExecutionPolicy, input: BlockInput, decoded: Option<seq<TxEnv>>,
                                    db: Db, plain: Db, n: nat)
    requires ValidPlatform(w.p) && Transparent(w) && Shadows(w.p, db, plain) && n <= |input.rawTxs|
    ensures SameTxs(w, RunTxs(w, policy, true, input, decoded, db, n),
                    RunTxs(w, policy, false, input, decoded, plain, n))
  {
    if n > 0 {
      TxsAlike(w, policy, input, decoded, db, plain, n - 1);
      var a := RunTxs(w, policy, true, input, decoded, db, n - 1);
      var b := RunTxs(w, policy, false, input, decoded, plain, n - 1);
      if a.Ok? {
        var raw, tx := input.rawTxs[n - 1], DecodedAt(decoded, n - 1);
        var x := TxStep(w, policy, true, input.env, raw, tx, a.value);
        var y := TxStep(w, policy, false, input.env, raw, tx, b.value);
        StepAlike(w, policy, input.env, raw, tx, a.value, b.value);
        ExtendAlike(w, a.value, b.value, x, y);
        RunOneMore(w, policy, true, input, decoded, db, n, a.value, x);
        RunOneMore(w, policy, false, input, decoded, plain, n, b.value, y);
      }
    }
  }

  /** Same error, or same journal, gas and transaction outcomes over states that differ in the cache only. */
  ghost predicate SameBlock(p: Platform, fast: Result<BlockOutcome, StfError>, slow: Result<BlockOutcome, StfError>)
  {
    match (fast, slow)
    case (Err(e), Err(f)) => e == f
    case (Ok(a), Ok(b)) =>
      a.journal == b.journal && a.gasUsed == b.gasUsed && a.transactions == b.transactions
      && Shadows(p, a.state, b.state)
    case _ => false
  }

  lemma RootsAlike(w: World, db: Db, plain: Db, mode: byte)
    requires Shadows(w.p, db, plain)
    ensures RoomRoot(w, db, mode) == RoomRoot(w, plain, mode)
  {
    RootIgnoresCache(w.p, db);
  }

  lemma ConcludeAlike(w: World, input: BlockInput, m: Mode, a: Result<BlockState, StfError>,
                      b: Result<BlockState, StfError>)
    requires SameTxs(w, a, b)
    ensures SameBlock(w.p, Conclude(w, input, m.(gadgets := true), a), Conclude(w, input, m.(gadgets := false), b))
  {
    if a.Ok? {
      RootsAlike(w, a.value.db, b.value.db, m.commitment);
    }
  }

  /** One block, executed by the fused interpreter over the cache or by the reference interpreter without it. */
  lemma BlocksAlike(w: World, input: BlockInput, m: Mode, db: Db, plain: Db)
    requires ValidPlatform(w.p) && Transparent(w) && Shadows(w.p, db, plain)
    ensures SameBlock(w.p, ExecuteBlock(w, input, m.(gadgets := true), db),
                      ExecuteBlock(w, input, m.(gadgets := false), plain))
  {
    var hashes := HistoryMap(input.history, |input.history|);
    var start, bare := db.(blockHashes := hashes), plain.(blockHashes := hashes);
    RootsAlike(w, start, bare, m.commitment);
    var policy := EffectivePolicy(m.policy);
    TxsAlike(w, policy, input, m.decoded, start, bare, |input.rawTxs|);
    ConcludeAlike(w, input, m, RunTxs(w, policy, true, input, m.decoded, start, |input.rawTxs|),
                  RunTxs(w, policy, false, input, m.decoded, bare, |input.rawTxs|));
  }

  // ----- Containment and code -----

  /** Code can only come from a creation the inspector sees: a call transaction without a creation event leaves every
      touched account with the code it had, or none. */
  ghost predicate CodeOnlyFromCreation(w: World)
  {
    forall gadgets, db, env, tx {:trigger w.exec(gadgets, db, env, tx)} ::
      var run := w.exec(gadgets, db, env, tx);
      tx.kind.CallTx? && run.Ran? && CreateEvent !in run.trace ==>
        forall a :: a in run.changes ==> CodeSurvives(w.p, db.accounts, a, run.changes[a])
  }

  ghost predicate CodeSurvives(p: Platform, accounts: Accounts, a: Address, c: Change)
  {
    var after := CommitRecord(p, Lookup(accounts, a), c);
    after.Some? ==> after.value.code == [] || after.value.code == CodeAt(accounts, a)
  }

  lemma CommitKeepsCode(p: Platform, db: Db, changes: Changes)
    requires ValidPlatform(p) && forall a :: a in changes ==> CodeSurvives(p, db.accounts, a, changes[a])
    ensures FromV5.CodeKept(db.accounts, Commit(p, db, changes).accounts)
  {
    var order := p.order(changes);
    assert Lists(order, changes.Keys);
    var after := Commit(p, db, changes).accounts;
    forall a | a in after && after[a].code != []
      ensures a in db.accounts && db.accounts[a].code != []
    {
      CommitPointwise(p, db, changes, order, a);
      assert Lookup(after, a) == Some(after[a]);
    }
  }

  /** What no commit changes: the declared envelope and the cached runtimes. */
  ghost predicate SameFrame(before: Db, after: Db)
  {
    && after.accessAccounts == before.accessAccounts && after.accessStorage == before.accessStorage
    && after.preparedCode == before.preparedCode
  }

  /** The envelope survives, and no empty account appears. */
  ghost predicate KeepsEnvelope(before: Db, after: Db)
  {
    && SameFrame(before, after)
    && (Enclosed(before) ==> Enclosed(after))
    && (NoEmptyAccounts(before.accounts) ==> NoEmptyAccounts(after.accounts))
  }

  /** What a certified policy forbids outright. */
  ghost predicate Certified(policy: ExecutionPolicy)
  {
    policy.certified && !policy.allowCreation && !policy.allowSelfDestruct
  }

  lemma StepKeepsEnvelope(w: World, policy: ExecutionPolicy, gadgets: bool, env: Env, raw: Bytes,
                          decoded: Option<TxEnv>, s: BlockState)
    requires ValidPlatform(w.p) && TxStep(w, policy, gadgets, env, raw, decoded, s).Ok?
    ensures KeepsEnvelope(s.db, TxStep(w, policy, gadgets, env, raw, decoded, s).value.db)
  {
    var run := w.exec(gadgets, s.db, env, Decode(w, env, raw, decoded).value);
    CommitKeepsPreparedCode(w.p, s.db, run.changes, w.p.order(run.changes));
    if Enclosed(s.db) {
      CommitKeepsEnclosed(w.p, s.db, run.changes);
    }
    if NoEmptyAccounts(s.db.accounts) {
      CommitKeepsNonEmpty(w.p, s.db, run.changes);
    }
  }

  lemma StepKeepsCode(w: World, policy: ExecutionPolicy, gadgets: bool, env: Env, raw: Bytes, decoded: Option<TxEnv>,
                      s: BlockState)
    requires ValidPlatform(w.p) && TxStep(w, policy, gadgets, env, raw, decoded, s).Ok? && Certified(policy)
             && CodeOnlyFromCreation(w)
    ensures FromV5.CodeKept(s.db.accounts, TxStep(w, policy, gadgets, env, raw, decoded, s).value.db.accounts)
  {
    StepAllowed(w, policy, gadgets, env, raw, decoded, s);
    var tx := Decode(w, env, raw, decoded).value;
    var run := w.exec(gadgets, s.db, env, tx);
    assert CreateEvent !in run.trace;
    CommitKeepsCode(w.p, s.db, run.changes);
  }

  /** What a prefix of a block keeps. */
  ghost predicate Keeps(policy: ExecutionPolicy, before: Db, after: Db)
  {
    && KeepsEnvelope(before, after)
    && (Certified(policy) ==> FromV5.CodeKept(before.accounts, after.accounts))
  }

  lemma {:induction false} TxsKeep(w: World, policy: ExecutionPolicy, gadgets: bool, input: BlockInput,
                                   decoded: Option<seq<TxEnv>>, db: Db, n: nat)
    requires ValidPlatform(w.p) && CodeOnlyFromCreation(w) && n <= |input.rawTxs|
    requires RunTxs(w, policy, gadgets, input, decoded, db, n).Ok?
    ensures Keeps(policy, db, RunTxs(w, policy, gadgets, input, decoded, db, n).value.db)
  {
    if n > 0 {
      TxsKeep(w, policy, gadgets, input, decoded, db, n - 1);
      var before := RunTxs(w, policy, gadgets, input, decoded, db, n - 1).value;
      StepKeepsEnvelope(w, policy, gadgets, input.env, input.rawTxs[n - 1], DecodedAt(decoded, n - 1), before);
      if Certified(policy) {
        StepKeepsCode(w, policy, gadgets, input.env, input.rawTxs[n - 1], DecodedAt(decoded, n - 1), before);
      }
    }
  }

  /** An accepted block keeps the state contained, and a certified one creates no code. */
  lemma BlockKeeps(w: World, input: BlockInput, m: Mode, db: Db)
    requires ValidPlatform(w.p) && CodeOnlyFromCreation(w) && ExecuteBlock(w, input, m, db).Ok?
    ensures Keeps(EffectivePolicy(m.policy), db, ExecuteBlock(w, input, m, db).value.state)
  {
    var start := db.(blockHashes := HistoryMap(input.history, |input.history|));
    TxsKeep(w, EffectivePolicy(m.policy), m.gadgets, input, m.decoded, start, |input.rawTxs|);
    EnvelopeIgnoresHistory(db, start);
  }

  lemma EnvelopeIgnoresHistory(db: Db, other: Db)
    requires other.(blockHashes := db.blockHashes) == db
    ensures KeepsEnvelope(db, other)
  {
  }
}
