/** What a block does: when it is accepted, and what its transactions leave in the state. */
module BlockEffects {
  import opened Bytes
  import opened State
  import opened StateLaws
  import opened Policy
  import opened Inspector
  import opened Block
  import opened BlockData
  import opened BlockLaws

  /** A block about to run its transactions over a state. */
  datatype Session = Session(w: World, policy: ExecutionPolicy, gadgets: bool, input: BlockInput,
                             decoded: Option<seq<TxEnv>>, db: Db)

  /** The state before transaction i. */
  ghost function Before(x: Session, i: nat): Db
    requires ValidPlatform(x.w.p) && i <= |x.input.rawTxs|
  {
    StateBefore(x.w, x.policy, x.gadgets, x.input, x.decoded, x.db, i)
  }

  ghost function After(x: Session, n: nat): Result<BlockState, StfError>
    requires ValidPlatform(x.w.p) && n <= |x.input.rawTxs|
  {
    RunTxs(x.w, x.policy, x.gadgets, x.input, x.decoded, x.db, n)
  }

  function TxAt(x: Session, i: nat): Result<TxEnv, int>
    requires i < |x.input.rawTxs|
  {
    Decode(x.w, x.input.env, x.input.rawTxs[i], DecodedAt(x.decoded, i))
  }

  /** What REVM reports for transaction i, run from the state before it. */
  ghost function RunAt(x: Session, i: nat): TxRun
    requires ValidPlatform(x.w.p) && i < |x.input.rawTxs| && TxAt(x, i).Ok?
  {
    x.w.exec(x.gadgets, Before(x, i), x.input.env, TxAt(x, i).value)
  }

  // ----- One transaction -----

  /** The account after a change: removed when selfdestructed or left empty; otherwise its nonce and balance are the
      committed ones, its slots the written ones, and its code the deployed one, none, or the one it had. */
  ghost predicate LeftBy(p: Platform, before: Accounts, c: Change, after: Accounts, a: Address)
  {
    && (c.selfdestructed ==> a !in after)
    && (a in after ==> after[a].nonce == c.info.nonce && after[a].balance == c.info.balance)
    && (a !in after && !c.selfdestructed ==> c.info.nonce == 0 && c.info.balance == 0)
    && (!c.selfdestructed ==>
          && (forall k: U256 :: SlotValue(after, a, k) == WrittenSlot(c, SlotValue(before, a, k), k))
          && (c.info.code.Some? && c.info.code.value.original != [] ==> CodeAt(after, a) == c.info.code.value.original)
          && (CarriesNoCode(p, c.info) ==> CodeAt(after, a) == [])
          && (KeepsCode(p, c.info) ==> CodeAt(after, a) == CodeAt(before, a)))
  }

  lemma CommitLeaves(p: Platform, db: Db, changes: Changes, a: Address)
    requires ValidPlatform(p)
    ensures var after := Commit(p, db, changes).accounts;
            if a in changes && changes[a].touched then LeftBy(p, db.accounts, changes[a], after, a)
            else Lookup(after, a) == Lookup(db.accounts, a)
  {
    var order, after := p.order(changes), Commit(p, db, changes).accounts;
    assert Lists(order, changes.Keys);
    CommitPointwise(p, db, changes, order, a);
    if a in changes && changes[a].touched {
      var c := changes[a];
      CommitReadsBack(p, db, changes, a, 0);
      if !c.selfdestructed {
        forall k: U256
          ensures SlotValue(after, a, k) == WrittenSlot(c, SlotValue(db.accounts, a, k), k)
        {
          CommitReadsBack(p, db, changes, a, k);
        }
        CommittedCodeAt(p, Lookup(db.accounts, a), c);
        assert Lookup(after, a) == CommitRecord(p, Lookup(db.accounts, a), c);
      }
    }
  }

  lemma CommittedCodeAt(p: Platform, record: Option<AccountRecord>, c: Change)
    requires c.touched && !c.selfdestructed
    ensures var after := CommitRecord(p, record, c);
            var code := if after.Some? then after.value.code else [];
            && (c.info.code.Some? && c.info.code.value.original != [] ==> code == c.info.code.value.original)
            && (CarriesNoCode(p, c.info) ==> code == [])
            && (KeepsCode(p, c.info) ==> code == if record.Some? then record.value.code else [])
  {
  }

  /** Every write of the change set stays inside the envelope. */
  ghost predicate AllDeclared(db: Db, changes: Changes)
  {
    forall a :: a in changes ==> WritesAllowed(db, a, changes[a])
  }

  /** What a transaction must be for the loop to go on: it decodes, its entry is allowed, it runs, every callback and
      every write stays inside the envelope, and the gas so far fits the block. */
  ghost predicate Passes(w: World, policy: ExecutionPolicy, gadgets: bool, env: Env, raw: Bytes, decoded: Option<TxEnv>,
                         s: BlockState)
  {
    var tx := Decode(w, env, raw, decoded);
    tx.Ok? && EntryAllowed(policy, tx.value.caller, tx.value.kind, tx.value.data) &&
    var run := w.exec(gadgets, s.db, env, tx.value);
    && run.Ran? && (forall k :: 0 <= k < |run.trace| ==> EventAllowed(policy, run.trace[k]))
    && s.db.violation.None? && AllDeclared(s.db, run.changes) && s.gas + run.gas <= env.gasLimit
  }

  lemma CommitUnlatched(p: Platform, db: Db, changes: Changes)
    requires ValidPlatform(p)
    ensures Commit(p, db, changes).violation.None? <==> db.violation.None? && AllDeclared(db, changes)
  {
    var order := p.order(changes);
    assert Lists(order, changes.Keys);
    CommitViolation(p, db, changes, order);
  }

  /** A step succeeds exactly for such a transaction. */
  lemma StepExact(w: World, policy: ExecutionPolicy, gadgets: bool, env: Env, raw: Bytes, decoded: Option<TxEnv>,
                  s: BlockState)
    requires ValidPlatform(w.p)
    ensures TxStep(w, policy, gadgets, env, raw, decoded, s).Ok? <==> Passes(w, policy, gadgets, env, raw, decoded, s)
  {
    var tx := Decode(w, env, raw, decoded);
    if tx.Ok? {
      EntryExact(policy, tx.value.caller, tx.value.kind, tx.value.data);
      var run := w.exec(gadgets, s.db, env, tx.value);
      if run.Ran? {
        ObserveExact(policy, gadgets && w.host, run.trace, s.observer.(violation := None));
        CommitUnlatched(w.p, s.db, run.changes);
      }
    }
  }

  /** A step leaves what its run reports: the changes, the gas, the hash and the status. */
  lemma StepLeaves(w: World, policy: ExecutionPolicy, gadgets: bool, env: Env, raw: Bytes, decoded: Option<TxEnv>,
                   s: BlockState, a: Address)
    requires ValidPlatform(w.p) && TxStep(w, policy, gadgets, env, raw, decoded, s).Ok?
    ensures var tx, done := Decode(w, env, raw, decoded), TxStep(w, policy, gadgets, env, raw, decoded, s).value;
            && tx.Ok? && w.exec(gadgets, s.db, env, tx.value).Ran?
            && var run := w.exec(gadgets, s.db, env, tx.value);
               && (if a in run.changes && run.changes[a].touched
                   then LeftBy(w.p, s.db.accounts, run.changes[a], done.db.accounts, a)
                   else Lookup(done.db.accounts, a) == Lookup(s.db.accounts, a))
               && done.gas == s.gas + run.gas && done.outcome == (w.p.keccak(raw), run.success)
  {
    var tx := Decode(w, env, raw, decoded);
    var run := w.exec(gadgets, s.db, env, tx.value);
    CommitLeaves(w.p, s.db, run.changes, a);
  }

  // ----- The loop -----

  ghost predicate PassesAt(x: Session, i: nat)
    requires ValidPlatform(x.w.p) && i < |x.input.rawTxs|
  {
    && TxAt(x, i).Ok? && EntryAllowed(x.policy, TxAt(x, i).value.caller, TxAt(x, i).value.kind, TxAt(x, i).value.data)
    && RunAt(x, i).Ran?
    && (forall k :: 0 <= k < |RunAt(x, i).trace| ==> EventAllowed(x.policy, RunAt(x, i).trace[k]))
    && Before(x, i).violation.None? && AllDeclared(Before(x, i), RunAt(x, i).changes)
    && GasUpTo(x, i + 1) <= x.input.env.gasLimit
  }

  /** The gas of the first n transactions. */
  ghost function GasUpTo(x: Session, n: nat): nat
    requires ValidPlatform(x.w.p) && n <= |x.input.rawTxs|
  {
    RunGas(x.w, x.policy, x.gadgets, x.input, x.decoded, x.db, n)
  }

  lemma StepAt(x: Session, i: nat)
    requires ValidPlatform(x.w.p) && i < |x.input.rawTxs| && After(x, i).Ok?
    ensures var s := After(x, i).value;
            Passes(x.w, x.policy, x.gadgets, x.input.env, x.input.rawTxs[i], DecodedAt(x.decoded, i), s)
            <==> PassesAt(x, i)
  {
    TxsAccounted(x.w, x.policy, x.gadgets, x.input, x.decoded, x.db, i);
  }

  lemma OneMoreExact(x: Session, n: nat)
    requires ValidPlatform(x.w.p) && n < |x.input.rawTxs| && After(x, n).Ok?
    ensures After(x, n + 1).Ok? <==> PassesAt(x, n)
  {
    var s := After(x, n).value;
    var raw, tx := x.input.rawTxs[n], DecodedAt(x.decoded, n);
    StepAt(x, n);
    StepExact(x.w, x.policy, x.gadgets, x.input.env, raw, tx, s);
    RunOneMore(x.w, x.policy, x.gadgets, x.input, x.decoded, x.db, n + 1, s,
               TxStep(x.w, x.policy, x.gadgets, x.input.env, raw, tx, s));
  }

  /** The first n transactions are accepted exactly when each of them passes in its turn. */
  lemma {:induction false} LoopExact(x: Session, n: nat)
    requires ValidPlatform(x.w.p) && n <= |x.input.rawTxs|
    ensures After(x, n).Ok? <==> forall i :: 0 <= i < n ==> PassesAt(x, i)
  {
    if n > 0 {
      LoopExact(x, n - 1);
      if After(x, n - 1).Ok? {
        OneMoreExact(x, n - 1);
      }
    }
  }

  /** Transaction i's change set touches the account. */
  ghost predicate Touches(x: Session, i: nat, a: Address)
    requires ValidPlatform(x.w.p) && i < |x.input.rawTxs|
  {
    TxAt(x, i).Ok? && RunAt(x, i).Ran? && a in RunAt(x, i).changes && RunAt(x, i).changes[a].touched
  }

  lemma PrefixAccepted(x: Session, i: nat, n: nat)
    requires ValidPlatform(x.w.p) && i <= n <= |x.input.rawTxs| && After(x, n).Ok?
    ensures After(x, i).Ok? && Before(x, i) == After(x, i).value.db
  {
    if After(x, i).Err? {
      FailureStays(x.w, x.policy, x.gadgets, x.input, x.decoded, x.db, i, n);
    }
  }

  lemma TxLeaves(x: Session, i: nat, a: Address)
    requires ValidPlatform(x.w.p) && i < |x.input.rawTxs| && After(x, i + 1).Ok?
    ensures TxAt(x, i).Ok? && RunAt(x, i).Ran?
    ensures var before, after := Before(x, i).accounts, After(x, i + 1).value.db.accounts;
            if Touches(x, i, a) then LeftBy(x.w.p, before, RunAt(x, i).changes[a], after, a)
            else Lookup(after, a) == Lookup(before, a)
    ensures After(x, i).Ok?
         && After(x, i + 1).value.outcomes
              == After(x, i).value.outcomes + [(x.w.p.keccak(x.input.rawTxs[i]), RunAt(x, i).success)]
  {
    PrefixAccepted(x, i, i + 1);
    var s := After(x, i).value;
    var raw, tx := x.input.rawTxs[i], DecodedAt(x.decoded, i);
    var step := TxStep(x.w, x.policy, x.gadgets, x.input.env, raw, tx, s);
    RunOneMore(x.w, x.policy, x.gadgets, x.input, x.decoded, x.db, i + 1, s, step);
    StepLeaves(x.w, x.policy, x.gadgets, x.input.env, raw, tx, s, a);
  }

  /** No transaction of the stretch touches the account. */
  ghost predicate Untouched(x: Session, m: nat, n: nat, a: Address)
    requires ValidPlatform(x.w.p) && n <= |x.input.rawTxs|
  {
    forall j :: m <= j < n ==> !Touches(x, j, a)
  }

  /** Transaction i is the last of the first n to touch the account. */
  ghost predicate LastTouch(x: Session, i: nat, n: nat, a: Address)
    requires ValidPlatform(x.w.p) && n <= |x.input.rawTxs|
  {
    i < n && Touches(x, i, a) && Untouched(x, i + 1, n, a)
  }

  lemma LastKept(x: Session, n: nat, a: Address)
    requires ValidPlatform(x.w.p) && n < |x.input.rawTxs| && After(x, n + 1).Ok? && !Touches(x, n, a)
    ensures After(x, n).Ok? && Before(x, n) == After(x, n).value.db
    ensures Lookup(After(x, n + 1).value.db.accounts, a) == Lookup(After(x, n).value.db.accounts, a)
  {
    PrefixAccepted(x, n, n + 1);
    TxLeaves(x, n, a);
  }

  /** An account no transaction of a stretch touches is as it was before the stretch. */
  lemma {:induction false} UntouchedKept(x: Session, m: nat, n: nat, a: Address)
    requires ValidPlatform(x.w.p) && m <= n <= |x.input.rawTxs| && After(x, n).Ok? && Untouched(x, m, n, a)
    ensures Lookup(After(x, n).value.db.accounts, a) == Lookup(Before(x, m).accounts, a)
  {
    if m < n {
      assert Untouched(x, m, n - 1, a);
      LastKept(x, n - 1, a);
      UntouchedKept(x, m, n - 1, a);
    }
  }

  /** An account is what the last transaction that touched it left. */
  lemma LastTouchDecides(x: Session, i: nat, n: nat, a: Address)
    requires ValidPlatform(x.w.p) && n <= |x.input.rawTxs| && After(x, n).Ok? && LastTouch(x, i, n, a)
    ensures LeftBy(x.w.p, Before(x, i).accounts, RunAt(x, i).changes[a], After(x, n).value.db.accounts, a)
  {
    PrefixAccepted(x, i + 1, n);
    TxLeaves(x, i, a);
    UntouchedKept(x, i + 1, n, a);
    LeftByLookup(x.w.p, Before(x, i).accounts, RunAt(x, i).changes[a], After(x, i + 1).value.db.accounts,
                 After(x, n).value.db.accounts, a);
  }

  lemma LeftByLookup(p: Platform, before: Accounts, c: Change, after: Accounts, later: Accounts, a: Address)
    requires LeftBy(p, before, c, after, a) && Lookup(later, a) == Lookup(after, a)
    ensures LeftBy(p, before, c, later, a)
  {
    assert a in later <==> a in after;
    assert forall k: U256 :: SlotValue(later, a, k) == SlotValue(after, a, k);
  }

  /** Outcome i is the hash of transaction i and whether its run succeeded. */
  ghost predicate OutcomeIs(x: Session, i: nat, outcome: (B256, bool))
    requires ValidPlatform(x.w.p) && i < |x.input.rawTxs|
  {
    TxAt(x, i).Ok? && RunAt(x, i).Ran? && outcome == (x.w.p.keccak(x.input.rawTxs[i]), RunAt(x, i).success)
  }

  ghost predicate OutcomesAre(x: Session, n: nat, outcomes: seq<(B256, bool)>)
    requires ValidPlatform(x.w.p) && n <= |x.input.rawTxs|
  {
    |outcomes| == n && forall i :: 0 <= i < n ==> OutcomeIs(x, i, outcomes[i])
  }

  lemma NextOutcome(x: Session, n: nat, outcomes: seq<(B256, bool)>, next: (B256, bool))
    requires ValidPlatform(x.w.p) && n < |x.input.rawTxs| && OutcomesAre(x, n, outcomes) && OutcomeIs(x, n, next)
    ensures OutcomesAre(x, n + 1, outcomes + [next])
  {
  }

  lemma {:induction false} OutcomesExact(x: Session, n: nat)
    requires ValidPlatform(x.w.p) && n <= |x.input.rawTxs| && After(x, n).Ok?
    ensures OutcomesAre(x, n, After(x, n).value.outcomes)
  {
    if n > 0 {
      PrefixAccepted(x, n - 1, n);
      OutcomesExact(x, n - 1);
      TxLeaves(x, n - 1, 0);
      NextOutcome(x, n - 1, After(x, n - 1).value.outcomes,
                  (x.w.p.keccak(x.input.rawTxs[n - 1]), RunAt(x, n - 1).success));
    }
  }

  // ----- The block -----

  /** The transactions of a block start from the given state with the block's own history. */
  ghost function SessionOf(w: World, input: BlockInput, m: Mode, db: Db): Session
  {
    Session(w, EffectivePolicy(m.policy), m.gadgets, input, m.decoded,
            db.(blockHashes := HistoryMap(input.history, |input.history|)))
  }

  /** A block is accepted exactly when its decoded list fits, its history is admissible, its commitment mode is known,
      the checked root is the state's, and every transaction passes. */
  lemma BlockAcceptedExactly(w: World, input: BlockInput, m: Mode, db: Db)
    requires ValidPlatform(w.p)
    ensures ExecuteBlock(w, input, m, db).Ok? <==>
              && (m.decoded.Some? ==> |m.decoded.value| == |input.rawTxs|)
              && HistoryOk(input.env.number, input.history) && m.commitment <= 1
              && (m.verifyRoot ==> RoomRoot(w, db, m.commitment) == Some(input.prevRoot))
              && forall i :: 0 <= i < |input.rawTxs| ==> PassesAt(SessionOf(w, input, m, db), i)
  {
    RootIgnoresHistory(w, db, HistoryMap(input.history, |input.history|), m.commitment);
    LoopExact(SessionOf(w, input, m, db), |input.rawTxs|);
  }

  lemma BlockRan(w: World, input: BlockInput, m: Mode, db: Db)
    requires ValidPlatform(w.p) && ExecuteBlock(w, input, m, db).Ok?
    ensures var x, out := SessionOf(w, input, m, db), ExecuteBlock(w, input, m, db).value;
            && After(x, |input.rawTxs|).Ok? && After(x, |input.rawTxs|).value.db == out.state
            && After(x, |input.rawTxs|).value.outcomes == out.transactions
            && After(x, |input.rawTxs|).value.gas == out.gasUsed
  {
  }

  /** In the outcome of an accepted block every account is what the last transaction that touched it left, and an
      account no transaction touched is as it was before the block. */
  lemma BlockLeaves(w: World, input: BlockInput, m: Mode, db: Db, a: Address)
    requires ValidPlatform(w.p) && ExecuteBlock(w, input, m, db).Ok?
    ensures var x, n, post := SessionOf(w, input, m, db), |input.rawTxs|,
            ExecuteBlock(w, input, m, db).value.state.accounts;
            && (Untouched(x, 0, n, a) ==> Lookup(post, a) == Lookup(db.accounts, a))
            && forall i :: LastTouch(x, i, n, a) ==>
                 LeftBy(w.p, Before(x, i).accounts, RunAt(x, i).changes[a], post, a)
  {
    var x, n := SessionOf(w, input, m, db), |input.rawTxs|;
    BlockRan(w, input, m, db);
    if Untouched(x, 0, n, a) {
      UntouchedKept(x, 0, n, a);
    }
    forall i | LastTouch(x, i, n, a)
      ensures LeftBy(w.p, Before(x, i).accounts, RunAt(x, i).changes[a], After(x, n).value.db.accounts, a)
    {
      LastTouchDecides(x, i, n, a);
    }
  }

  /** The rest of the outcome: one record per transaction with its hash and status, the gas of all of them, and a
      journal of the block's own numbers and commitments between the two roots. */
  lemma BlockReports(w: World, input: BlockInput, m: Mode, db: Db)
    requires ValidPlatform(w.p) && ExecuteBlock(w, input, m, db).Ok?
    ensures var x, out := SessionOf(w, input, m, db), ExecuteBlock(w, input, m, db).value;
            && OutcomesAre(x, |input.rawTxs|, out.transactions)
            && out.gasUsed == GasUpTo(x, |input.rawTxs|)
            && out.journal.roomId == input.roomId && out.journal.number == input.number
            && out.journal.prevRoot == input.prevRoot
            && RoomRoot(w, out.state, m.commitment) == Some(out.journal.postRoot)
            && out.journal.txCommitment == w.txCommitment(input.rawTxs) && out.journal.envHash == w.envHash(input.env)
  {
    var x, n := SessionOf(w, input, m, db), |input.rawTxs|;
    BlockRan(w, input, m, db);
    OutcomesExact(x, n);
    TxsAccounted(x.w, x.policy, x.gadgets, x.input, x.decoded, x.db, n);
  }
}
