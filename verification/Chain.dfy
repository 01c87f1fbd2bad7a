/** The block loop shared by batches and cold preparation: a carried state, root, clock and journal list. */
module Chain {
  import opened Bytes
  import opened State
  import opened Policy
  import opened Block
  import opened BlockLaws
  import opened BlockData

  datatype BlockRecord = BlockRecord(number: U64, postRoot: B256, txCommitment: B256, envHash: B256)

  /** Every transaction of a block decodes. */
  predicate Decodes(w: World, b: ChainBlock)
  {
    forall i :: 0 <= i < |b.rawTxs| ==> w.decodeTx(b.rawTxs[i], b.env.chainId).Ok?
  }

  datatype Carry = Carry(db: Db, root: B256, timestamp: U64, journals: seq<BlockRecord>)

  /** What a loop demands of the i-th block next to the previous timestamp, and how it executes it. */
  datatype Rules = Rules(roomId: U64, check: (nat, ChainBlock, U64) -> Option<StfError>, mode: Mode, gasCap: nat)

  /** Block execution as a function of the block, the mode and the state. */
  type BlockExec = (BlockInput, Mode, Db) -> Result<BlockOutcome, StfError>

  ghost function Exec(w: World): BlockExec
    requires ValidPlatform(w.p)
  {
    (input, m, db) => ExecuteBlock(w, input, m, db)
  }

  function InputFor(rules: Rules, b: ChainBlock, root: B256): BlockInput
  {
    BlockInput(rules.roomId, b.number, root, b.rawTxs, b.env, b.history)
  }

  /** The checks after a block ran. */
  function Accept(rules: Rules, b: ChainBlock, c: Carry, out: Result<BlockOutcome, StfError>): Result<Carry, StfError>
  {
    if out.Err? then Err(out.error)
    else if out.value.gasUsed > rules.gasCap then Err(BlockGasLimit(out.value.gasUsed))
    else if out.value.journal.postRoot != b.expectedRoot then Err(InvalidBatch(0))
    else
      var j := out.value.journal;
      Ok(Carry(out.value.state, j.postRoot, b.env.timestamp,
               c.journals + [BlockRecord(b.number, j.postRoot, j.txCommitment, j.envHash)]))
  }

  function ChainStep(exec: BlockExec, rules: Rules, i: nat, b: ChainBlock, c: Carry): Result<Carry, StfError>
  {
    var bad := rules.check(i, b, c.timestamp);
    if bad.Some? then Err(bad.value) else Accept(rules, b, c, exec(InputFor(rules, b, c.root), rules.mode, c.db))
  }

  /** The loop after n blocks. */
  function RunChain(exec: BlockExec, rules: Rules, blocks: seq<ChainBlock>, start: Carry,
                    n: nat): Result<Carry, StfError>
    requires n <= |blocks|
  {
    if n == 0 then Ok(start)
    else
      var before := RunChain(exec, rules, blocks, start, n - 1);
      if before.Err? then before else ChainStep(exec, rules, n - 1, blocks[n - 1], before.value)
  }

  lemma {:induction false} ChainFailureStays(exec: BlockExec, rules: Rules, blocks: seq<ChainBlock>, start: Carry,
                                             i: nat, n: nat)
    requires i <= n <= |blocks| && RunChain(exec, rules, blocks, start, i).Err?
    ensures RunChain(exec, rules, blocks, start, n) == RunChain(exec, rules, blocks, start, i)
  {
    if i < n {
      ChainFailureStays(exec, rules, blocks, start, i, n - 1);
    }
  }

  /** `exec` is block execution in the world w. */
  ghost predicate Implements(w: World, exec: BlockExec)
    requires ValidPlatform(w.p)
  {
    forall input: BlockInput, m: Mode, db: Db {:trigger ExecuteBlock(w, input, m, db)} ::
          exec(input, m, db) == ExecuteBlock(w, input, m, db)
  }

  method RunBlocks(w: World, ghost exec: BlockExec, rules: Rules, blocks: seq<ChainBlock>, start: Carry)
    returns (r: Result<Carry, StfError>)
    requires ValidPlatform(w.p) && Implements(w, exec)
    ensures r == RunChain(exec, rules, blocks, start, |blocks|)
  {
    var c := start;
    var i := 0;
    while i < |blocks|
      invariant 0 <= i <= |blocks|
      invariant RunChain(exec, rules, blocks, start, i) == Ok(c)
    {
      var next := RunBlock(w, exec, rules, i, blocks[i], c);
      if next.Err? {
        ChainFailureStays(exec, rules, blocks, start, i + 1, |blocks|);
        return next;
      }
      c := next.value;
      i := i + 1;
    }
    r := Ok(c);
  }

  method RunBlock(w: World, ghost exec: BlockExec, rules: Rules, i: nat, b: ChainBlock, c: Carry)
    returns (r: Result<Carry, StfError>)
    requires ValidPlatform(w.p) && Implements(w, exec)
    ensures r == ChainStep(exec, rules, i, b, c)
  {
    var bad := rules.check(i, b, c.timestamp);
    if bad.Some? {
      return Err(bad.value);
    }
    var out := ExecuteBlockOnState(w, InputFor(rules, b, c.root), rules.mode, c.db);
    r := Accept(rules, b, c, out);
  }

  // ----- The carried root -----

  /** The state commitment in each mode. */
  type RootOf = (Db, byte) -> Option<B256>

  /** Blocks hand on the root of the state they hand on. */
  ghost predicate CarriesRoot(root: RootOf, exec: BlockExec)
  {
    forall input: BlockInput, m: Mode, db: Db {:trigger exec(input, m, db)} :: exec(input, m, db).Ok? ==>
      root(exec(input, m, db).value.state, m.commitment) == Some(exec(input, m, db).value.journal.postRoot)
  }

  /** Checking a correct carried root changes nothing. */
  ghost predicate CheckRedundant(root: RootOf, exec: BlockExec)
  {
    forall input: BlockInput, m: Mode, m': Mode, db: Db {:trigger exec(input, m, db), exec(input, m', db)} ::
      m'.(verifyRoot := m.verifyRoot) == m && root(db, m.commitment) == Some(input.prevRoot) ==>
        exec(input, m, db) == exec(input, m', db)
  }

  /** The carried root always equals the recomputed root of the carried state. */
  lemma CarriedRootIsStateRoot(root: RootOf, exec: BlockExec, rules: Rules, blocks: seq<ChainBlock>, start: Carry,
                               n: nat)
    requires CarriesRoot(root, exec) && n <= |blocks| && RunChain(exec, rules, blocks, start, n).Ok?
    requires root(start.db, rules.mode.commitment) == Some(start.root)
    ensures var c := RunChain(exec, rules, blocks, start, n).value; root(c.db, rules.mode.commitment) == Some(c.root)
  {
    if n > 0 {
      var before := RunChain(exec, rules, blocks, start, n - 1).value;
      assert ChainStep(exec, rules, n - 1, blocks[n - 1], before).Ok?;
    }
  }

  function Verifying(rules: Rules, on: bool): Rules
  {
    rules.(mode := rules.mode.(verifyRoot := on))
  }

  /** Turning the root check on never changes the result of the loop. */
  lemma {:induction false} VerifyingChangesNothing(root: RootOf, exec: BlockExec, rules: Rules, blocks: seq<ChainBlock>,
                                                   start: Carry, n: nat)
    requires CarriesRoot(root, exec) && CheckRedundant(root, exec)
    requires n <= |blocks| && root(start.db, rules.mode.commitment) == Some(start.root)
    ensures RunChain(exec, Verifying(rules, true), blocks, start, n)
            == RunChain(exec, Verifying(rules, false), blocks, start, n)
  {
    if n > 0 {
      VerifyingChangesNothing(root, exec, rules, blocks, start, n - 1);
      var before := RunChain(exec, Verifying(rules, false), blocks, start, n - 1);
      if before.Ok? {
        CarriedRootIsStateRoot(root, exec, Verifying(rules, false), blocks, start, n - 1);
        var b, c := blocks[n - 1], before.value;
        assert exec(InputFor(rules, b, c.root), rules.mode.(verifyRoot := true), c.db)
               == exec(InputFor(rules, b, c.root), rules.mode.(verifyRoot := false), c.db);
      }
    }
  }

  /** The clock the loop holds before block i. */
  function ClockBefore(blocks: seq<ChainBlock>, start: Carry, i: nat): U64
    requires i <= |blocks|
  {
    if i == 0 then start.timestamp else blocks[i - 1].env.timestamp
  }

  function RootBefore(blocks: seq<ChainBlock>, start: Carry, i: nat): B256
    requires i <= |blocks|
  {
    if i == 0 then start.root else blocks[i - 1].expectedRoot
  }

  lemma PrefixOk(exec: BlockExec, rules: Rules, blocks: seq<ChainBlock>, start: Carry, i: nat, n: nat)
    requires i <= n <= |blocks| && RunChain(exec, rules, blocks, start, n).Ok?
    ensures RunChain(exec, rules, blocks, start, i).Ok?
  {
    if RunChain(exec, rules, blocks, start, i).Err? {
      ChainFailureStays(exec, rules, blocks, start, i, n);
    }
  }

  /** Before every block the loop holds the previous block's root and timestamp, and the block passed its checks. */
  lemma AcceptedBlock(exec: BlockExec, rules: Rules, blocks: seq<ChainBlock>, start: Carry, i: nat)
    requires i < |blocks| && RunChain(exec, rules, blocks, start, |blocks|).Ok?
    ensures rules.check(i, blocks[i], ClockBefore(blocks, start, i)).None?
    ensures var before := RunChain(exec, rules, blocks, start, i);
            && before.Ok? && before.value.root == RootBefore(blocks, start, i)
            && var out := exec(InputFor(rules, blocks[i], RootBefore(blocks, start, i)), rules.mode, before.value.db);
               out.Ok? && out.value.journal.postRoot == blocks[i].expectedRoot && out.value.gasUsed <= rules.gasCap
  {
    PrefixOk(exec, rules, blocks, start, i + 1, |blocks|);
    PrefixOk(exec, rules, blocks, start, i, |blocks|);
    var before := RunChain(exec, rules, blocks, start, i).value;
    if i > 0 {
      assert ChainStep(exec, rules, i - 1, blocks[i - 1], RunChain(exec, rules, blocks, start, i - 1).value)
             == Ok(before);
    }
    assert ChainStep(exec, rules, i, blocks[i], before).Ok?;
  }

  /** What block i runs to, from the state the blocks before it left and the root of the block before it. */
  function RunOf(exec: BlockExec, rules: Rules, blocks: seq<ChainBlock>, start: Carry, i: nat, db: Db)
    : Result<BlockOutcome, StfError>
    requires i < |blocks|
  {
    exec(InputFor(rules, blocks[i], RootBefore(blocks, start, i)), rules.mode, db)
  }

  /** Block i passes the header checks against the block before it, runs, stays within the gas cap and reaches the root
      it names. */
  predicate BlockPasses(exec: BlockExec, rules: Rules, blocks: seq<ChainBlock>, start: Carry, i: nat, db: Db)
    requires i < |blocks|
  {
    && rules.check(i, blocks[i], ClockBefore(blocks, start, i)).None?
    && var out := RunOf(exec, rules, blocks, start, i, db);
       out.Ok? && out.value.gasUsed <= rules.gasCap && out.value.journal.postRoot == blocks[i].expectedRoot
  }

  /** Each state is the one the block before it left, starting from the first. */
  predicate HandedOn(exec: BlockExec, rules: Rules, blocks: seq<ChainBlock>, start: Carry, dbs: seq<Db>)
  {
    && |dbs| == |blocks| + 1 && dbs[0] == start.db
    && forall i :: 0 <= i < |blocks| ==> Hands(exec, rules, blocks, start, i, dbs[i], dbs[i + 1])
  }

  predicate Hands(exec: BlockExec, rules: Rules, blocks: seq<ChainBlock>, start: Carry, i: nat, db: Db, next: Db)
    requires i < |blocks|
  {
    BlockPasses(exec, rules, blocks, start, i, db) && RunOf(exec, rules, blocks, start, i, db).value.state == next
  }

  lemma {:induction false} StatesReached(exec: BlockExec, rules: Rules, blocks: seq<ChainBlock>, start: Carry,
                                         dbs: seq<Db>, n: nat)
    requires HandedOn(exec, rules, blocks, start, dbs) && n <= |blocks|
    ensures var r := RunChain(exec, rules, blocks, start, n);
            r.Ok? && r.value.db == dbs[n] && r.value.root == RootBefore(blocks, start, n)
            && r.value.timestamp == ClockBefore(blocks, start, n)
  {
    if n > 0 {
      StatesReached(exec, rules, blocks, start, dbs, n - 1);
      assert Hands(exec, rules, blocks, start, n - 1, dbs[n - 1], dbs[n]);
    }
  }

  lemma LoopHands(exec: BlockExec, rules: Rules, blocks: seq<ChainBlock>, start: Carry, i: nat)
    requires i < |blocks| && RunChain(exec, rules, blocks, start, |blocks|).Ok?
    ensures RunChain(exec, rules, blocks, start, i).Ok? && RunChain(exec, rules, blocks, start, i + 1).Ok?
    ensures Hands(exec, rules, blocks, start, i, RunChain(exec, rules, blocks, start, i).value.db,
                  RunChain(exec, rules, blocks, start, i + 1).value.db)
  {
    AcceptedBlock(exec, rules, blocks, start, i);
    PrefixOk(exec, rules, blocks, start, i + 1, |blocks|);
  }

  /** The loop accepts exactly the block lists that have a chain of states: every block passes from the state the block
      before it left. */
  lemma ChainAcceptedExactly(exec: BlockExec, rules: Rules, blocks: seq<ChainBlock>, start: Carry)
    ensures RunChain(exec, rules, blocks, start, |blocks|).Ok?
            <==> exists dbs :: HandedOn(exec, rules, blocks, start, dbs)
    ensures forall dbs :: HandedOn(exec, rules, blocks, start, dbs) ==>
      RunChain(exec, rules, blocks, start, |blocks|).value.db == dbs[|blocks|]
  {
    if RunChain(exec, rules, blocks, start, |blocks|).Ok? {
      var dbs := seq(|blocks| + 1, (i: int) =>
        if 0 <= i <= |blocks| && RunChain(exec, rules, blocks, start, i).Ok?
        then RunChain(exec, rules, blocks, start, i).value.db else start.db);
      forall i | 0 <= i < |blocks|
        ensures Hands(exec, rules, blocks, start, i, dbs[i], dbs[i + 1])
      {
        LoopHands(exec, rules, blocks, start, i);
      }
      assert HandedOn(exec, rules, blocks, start, dbs);
    }
    forall dbs | HandedOn(exec, rules, blocks, start, dbs)
      ensures RunChain(exec, rules, blocks, start, |blocks|).Ok?
              && RunChain(exec, rules, blocks, start, |blocks|).value.db == dbs[|blocks|]
    {
      StatesReached(exec, rules, blocks, start, dbs, |blocks|);
    }
  }

  /** The state before block i has the root recorded before it: the start root, or the previous block's root. */
  ghost predicate RunsFromRoot(root: RootOf, exec: BlockExec, rules: Rules, blocks: seq<ChainBlock>, start: Carry,
                               i: nat)
    requires i <= |blocks|
  {
    var before := RunChain(exec, rules, blocks, start, i);
    before.Ok? && root(before.value.db, rules.mode.commitment) == Some(RootBefore(blocks, start, i))
  }

  /** Accepted blocks are chained root to root: each runs from a state whose root is the previous block's recorded
      root. */
  lemma RootToRoot(root: RootOf, exec: BlockExec, rules: Rules, blocks: seq<ChainBlock>, start: Carry, i: nat)
    requires CarriesRoot(root, exec) && root(start.db, rules.mode.commitment) == Some(start.root)
    requires i <= |blocks| && RunChain(exec, rules, blocks, start, |blocks|).Ok?
    ensures RunsFromRoot(root, exec, rules, blocks, start, i)
  {
    PrefixOk(exec, rules, blocks, start, i, |blocks|);
    CarriedRootIsStateRoot(root, exec, rules, blocks, start, i);
    if i > 0 {
      AcceptedBlock(exec, rules, blocks, start, i - 1);
      var before := RunChain(exec, rules, blocks, start, i - 1).value;
      assert ChainStep(exec, rules, i - 1, blocks[i - 1], before) == RunChain(exec, rules, blocks, start, i);
    }
  }

  /** Each journal carries the commitments of its own block. */
  ghost predicate RecordsBlock(txCommitment: seq<Bytes> -> B256, envHash: Env -> B256, exec: BlockExec)
  {
    forall input: BlockInput, m: Mode, db: Db {:trigger exec(input, m, db)} :: exec(input, m, db).Ok? ==>
      var j := exec(input, m, db).value.journal;
      j.txCommitment == txCommitment(input.rawTxs) && j.envHash == envHash(input.env)
  }

  /** The final carry names the last block's root and timestamp and one record per block. */
  lemma {:induction false} FinalCarry(txCommitment: seq<Bytes> -> B256, envHash: Env -> B256, exec: BlockExec,
                                      rules: Rules, blocks: seq<ChainBlock>, start: Carry, n: nat)
    requires RecordsBlock(txCommitment, envHash, exec)
    requires n <= |blocks| && RunChain(exec, rules, blocks, start, n).Ok? && start.journals == []
    ensures var c := RunChain(exec, rules, blocks, start, n).value;
            && c.root == RootBefore(blocks, start, n) && c.timestamp == ClockBefore(blocks, start, n)
            && |c.journals| == n
            && forall i :: 0 <= i < n ==>
                 c.journals[i] == BlockRecord(blocks[i].number, blocks[i].expectedRoot,
                                              txCommitment(blocks[i].rawTxs), envHash(blocks[i].env))
  {
    if n > 0 {
      FinalCarry(txCommitment, envHash, exec, rules, blocks, start, n - 1);
      var before := RunChain(exec, rules, blocks, start, n - 1).value;
      assert ChainStep(exec, rules, n - 1, blocks[n - 1], before).Ok?;
    }
  }

  // ----- Production and reference execution -----

  ghost predicate SameCarry(p: Platform, fast: Result<Carry, StfError>, slow: Result<Carry, StfError>)
  {
    match (fast, slow)
    case (Err(e), Err(f)) => e == f
    case (Ok(a), Ok(b)) => Shadows(p, a.db, b.db) && a.(db := b.db) == b
    case _ => false
  }

  function Gadgeted(rules: Rules, on: bool): Rules
  {
    rules.(mode := rules.mode.(gadgets := on))
  }

  ghost predicate ExecutesAlike(p: Platform, exec: BlockExec)
  {
    forall input: BlockInput, m: Mode, m': Mode, db: Db, plain: Db
      {:trigger exec(input, m, db), exec(input, m', plain)} ::
      m.gadgets && m' == m.(gadgets := false) && Shadows(p, db, plain) ==>
        SameBlock(p, exec(input, m, db), exec(input, m', plain))
  }

  lemma StepsAlike(p: Platform, exec: BlockExec, rules: Rules, i: nat, b: ChainBlock, c: Carry, d: Carry)
    requires ExecutesAlike(p, exec) && Shadows(p, c.db, d.db) && c.(db := d.db) == d
    ensures SameCarry(p, ChainStep(exec, Gadgeted(rules, true), i, b, c),
                      ChainStep(exec, Gadgeted(rules, false), i, b, d))
  {
    var input := InputFor(rules, b, c.root);
    assert SameBlock(p, exec(input, rules.mode.(gadgets := true), c.db),
                     exec(input, rules.mode.(gadgets := false), d.db));
  }

  /** The loop with the fast interpreter over the cache and the loop without either carry the same things. */
  lemma {:induction false} ChainsAlike(p: Platform, exec: BlockExec, rules: Rules, blocks: seq<ChainBlock>,
                                       start: Carry, plain: Carry, n: nat)
    requires ExecutesAlike(p, exec) && n <= |blocks| && Shadows(p, start.db, plain.db)
             && start.(db := plain.db) == plain
    ensures SameCarry(p, RunChain(exec, Gadgeted(rules, true), blocks, start, n),
                      RunChain(exec, Gadgeted(rules, false), blocks, plain, n))
  {
    if n > 0 {
      ChainsAlike(p, exec, rules, blocks, start, plain, n - 1);
      var a, b := RunChain(exec, Gadgeted(rules, true), blocks, start, n - 1),
          RunChain(exec, Gadgeted(rules, false), blocks, plain, n - 1);
      if a.Ok? {
        StepsAlike(p, exec, rules, n - 1, blocks[n - 1], a.value, b.value);
      }
    }
  }

  // ----- Containment and code -----

  ghost predicate BlocksKeep(exec: BlockExec)
  {
    forall input: BlockInput, m: Mode, db: Db {:trigger exec(input, m, db)} :: exec(input, m, db).Ok? ==>
      Keeps(EffectivePolicy(m.policy), db, exec(input, m, db).value.state)
  }

  lemma KeepsTransitive(policy: ExecutionPolicy, a: Db, b: Db, c: Db)
    requires Keeps(policy, a, b) && Keeps(policy, b, c)
    ensures Keeps(policy, a, c)
  {
  }

  /** Accepted loops keep the state contained; certified ones create no code. */
  lemma {:induction false} ChainKeeps(exec: BlockExec, rules: Rules, blocks: seq<ChainBlock>, start: Carry, n: nat)
    requires BlocksKeep(exec) && n <= |blocks| && RunChain(exec, rules, blocks, start, n).Ok?
    ensures Keeps(EffectivePolicy(rules.mode.policy), start.db, RunChain(exec, rules, blocks, start, n).value.db)
  {
    if n > 0 {
      ChainKeeps(exec, rules, blocks, start, n - 1);
      var before, after := RunChain(exec, rules, blocks, start, n - 1).value,
          RunChain(exec, rules, blocks, start, n).value;
      assert ChainStep(exec, rules, n - 1, blocks[n - 1], before) == Ok(after);
      assert Keeps(EffectivePolicy(rules.mode.policy), before.db, after.db);
      KeepsTransitive(EffectivePolicy(rules.mode.policy), start.db, before.db, after.db);
    }
  }

  // ----- Block execution has these properties -----

  function RootIn(w: World): RootOf
  {
    (db, mode) => RoomRoot(w, db, mode)
  }

  lemma ExecRoots(w: World)
    requires ValidPlatform(w.p)
    ensures Implements(w, Exec(w)) && CarriesRoot(RootIn(w), Exec(w))
            && RecordsBlock(w.txCommitment, w.envHash, Exec(w))
  {
    forall input: BlockInput, m: Mode, db: Db | ExecuteBlock(w, input, m, db).Ok?
      ensures RoomRoot(w, ExecuteBlock(w, input, m, db).value.state, m.commitment)
              == Some(ExecuteBlock(w, input, m, db).value.journal.postRoot)
    {
      BlockCarriesRoot(w, input, m, db);
    }
  }

  /** In the account-trie mode the carried root is the state root. */
  lemma TrieRootToRoot(w: World, rules: Rules, blocks: seq<ChainBlock>, start: Carry, i: nat)
    requires ValidPlatform(w.p) && rules.mode.commitment == 0 && RootIn(w)(start.db, 0) == Some(start.root)
    requires i <= |blocks| && RunChain(Exec(w), rules, blocks, start, |blocks|).Ok?
    ensures RunChain(Exec(w), rules, blocks, start, i).Ok?
    ensures StateRoot(w.p, RunChain(Exec(w), rules, blocks, start, i).value.db) == RootBefore(blocks, start, i)
  {
    ExecRoots(w);
    RootToRoot(RootIn(w), Exec(w), rules, blocks, start, i);
    var before := RunChain(Exec(w), rules, blocks, start, i).value;
    assert RootIn(w)(before.db, 0) == RoomRoot(w, before.db, 0);
  }

  lemma ExecCheckRedundant(w: World)
    requires ValidPlatform(w.p)
    ensures CheckRedundant(RootIn(w), Exec(w))
  {
    forall input: BlockInput, m: Mode, m': Mode, db: Db
      | m'.(verifyRoot := m.verifyRoot) == m && RoomRoot(w, db, m.commitment) == Some(input.prevRoot)
      ensures ExecuteBlock(w, input, m, db) == ExecuteBlock(w, input, m', db)
    {
      RootCheckRedundant(w, input, m, db);
      assert m == m.(verifyRoot := true) || m == m.(verifyRoot := false);
      assert m' == m.(verifyRoot := true) || m' == m.(verifyRoot := false);
    }
  }

  lemma ExecAlike(w: World)
    requires ValidPlatform(w.p) && Transparent(w)
    ensures ExecutesAlike(w.p, Exec(w))
  {
    forall input: BlockInput, m: Mode, m': Mode, db: Db, plain: Db
      | m.gadgets && m' == m.(gadgets := false) && Shadows(w.p, db, plain)
      ensures SameBlock(w.p, ExecuteBlock(w, input, m, db), ExecuteBlock(w, input, m', plain))
    {
      BlocksAlike(w, input, m, db, plain);
      assert m == m.(gadgets := true);
    }
  }

  lemma ExecKeeps(w: World)
    requires ValidPlatform(w.p) && CodeOnlyFromCreation(w)
    ensures BlocksKeep(Exec(w))
  {
    forall input: BlockInput, m: Mode, db: Db | ExecuteBlock(w, input, m, db).Ok?
      ensures Keeps(EffectivePolicy(m.policy), db, ExecuteBlock(w, input, m, db).value.state)
    {
      BlockKeeps(w, input, m, db);
    }
  }

  // ----- Every transaction -----

  /** The state a block's transactions start from. */
  ghost function OpeningState(exec: BlockExec, rules: Rules, blocks: seq<ChainBlock>, start: Carry, i: nat): Db
    requires i < |blocks|
  {
    var before := RunChain(exec, rules, blocks, start, i);
    (if before.Ok? then before.value.db
     else start.db).(blockHashes := HistoryMap(blocks[i].history, |blocks[i].history|))
  }

  lemma BlockTxAllowed(w: World, input: BlockInput, m: Mode, db: Db, j: nat)
    requires ValidPlatform(w.p) && ExecuteBlock(w, input, m, db).Ok? && j < |input.rawTxs|
    ensures TxAllowed(w, EffectivePolicy(m.policy), m.gadgets, input, m.decoded,
                      db.(blockHashes := HistoryMap(input.history, |input.history|)), j)
  {
    AcceptedTxs(w, EffectivePolicy(m.policy), m.gadgets, input, m.decoded,
                db.(blockHashes := HistoryMap(input.history, |input.history|)), |input.rawTxs|, j);
  }

  /** In every transaction of every accepted block the root call and every callback were inside the envelope. */
  lemma EveryTransactionAllowed(w: World, exec: BlockExec, rules: Rules, blocks: seq<ChainBlock>, start: Carry, i: nat,
                                j: nat)
    requires ValidPlatform(w.p) && exec == Exec(w)
    requires RunChain(exec, rules, blocks, start, |blocks|).Ok? && i < |blocks| && j < |blocks[i].rawTxs|
    ensures TxAllowed(w, EffectivePolicy(rules.mode.policy), rules.mode.gadgets,
                      InputFor(rules, blocks[i], RootBefore(blocks, start, i)),
                      rules.mode.decoded, OpeningState(exec, rules, blocks, start, i), j)
  {
    AcceptedBlock(exec, rules, blocks, start, i);
    BlockTxAllowed(w, InputFor(rules, blocks[i], RootBefore(blocks, start, i)), rules.mode,
                   RunChain(exec, rules, blocks, start, i).value.db, j);
  }
}
