/** One batch of a long-lived room, and what holds in every state of every run of accepted batches. */
module RoomV5 {
  import opened Bytes
  import opened State
  import opened StateLaws
  import opened Policy
  import opened FromV5
  import opened Compact
  import opened SparseRoot
  import opened Ordered
  import opened Inbox
  import opened OpeningWrites
  import opened Block
  import opened BlockData
  import opened BlockLaws
  import opened Chain
  import Rlp
  import BatchData

  const MAX_WITNESS_BYTES: nat := 8388608

  /** `rest` is what only the checks decided elsewhere read. */
  datatype BatchV5 = BatchV5(
    policy: PolicyV5,
    policyHash: B256,
    authorization: byte,
    close: bool,
    deployment: B256,
    roomId: U64,
    startBlock: U64,
    endBlock: U64,
    preRoot: B256,
    postRoot: B256,
    dataHash: B256,
    witnessBytes: nat,
    listed: seq<AccountWitness>,
    l1: Option<L1Import>,
    deposits: seq<Deposit>,
    fees: seq<Fee>,
    rosterChanged: bool,
    blocks: seq<ChainBlock>,
    rest: Bytes)

  /** The parts of a batch decided elsewhere: the policy's hash, the public identity fields with the roster and
      liability transitions, which yield the approvers; the participant registry at the opening; the import's metadata
      and proofs; the room's chain id; and registry, admissions and exits at the close. */
  datatype Room = Room(
    hashOf: PolicyV5 -> B256,
    usizeMax: nat,
    precompiles: set<Address>,
    approvers: BatchV5 -> Option<set<Address>>,
    opens: (BatchV5, Accounts) -> bool,
    importProven: BatchV5 -> bool,
    chainId: (B256, U64) -> U64,
    closes: (BatchV5, Accounts) -> bool)

  predicate CountOk(input: BatchV5)
  {
    && 0 < |input.blocks| <= input.policy.maxBlocks && (|input.blocks| == 1 ==> input.close)
    && input.witnessBytes <= MAX_WITNESS_BYTES && input.endBlock == input.startBlock + |input.blocks| - 1
  }

  // ----- Callers -----

  /** The senders of a block's transactions that decode. */
  function SendersOf(w: World, b: ChainBlock): set<Address>
  {
    set i | 0 <= i < |b.rawTxs| && w.decodeTx(b.rawTxs[i], b.env.chainId).Ok? ::
      w.decodeTx(b.rawTxs[i], b.env.chainId).value.caller
  }

  function Senders(w: World, blocks: seq<ChainBlock>, n: nat): set<Address>
    requires n <= |blocks|
  {
    if n == 0 then {} else Senders(w, blocks, n - 1) + SendersOf(w, blocks[n - 1])
  }

  predicate AllDecode(w: World, blocks: seq<ChainBlock>)
  {
    forall i :: 0 <= i < |blocks| ==> Decodes(w, blocks[i])
  }

  method BlockSenders(w: World, b: ChainBlock) returns (r: Option<set<Address>>)
    ensures r == if Decodes(w, b) then Some(SendersOf(w, b)) else None
  {
    var found: set<Address> := {};
    var i := 0;
    while i < |b.rawTxs|
      invariant 0 <= i <= |b.rawTxs|
      invariant forall j :: 0 <= j < i ==> w.decodeTx(b.rawTxs[j], b.env.chainId).Ok?
      invariant found == set j | 0 <= j < i
                && w.decodeTx(b.rawTxs[j], b.env.chainId).Ok? :: w.decodeTx(b.rawTxs[j], b.env.chainId).value.caller
    {
      var tx := w.decodeTx(b.rawTxs[i], b.env.chainId);
      if tx.Err? {
        return None;
      }
      found := found + {tx.value.caller};
      i := i + 1;
    }
    r := Some(found);
  }

  method GatherSenders(w: World, blocks: seq<ChainBlock>) returns (r: Option<set<Address>>)
    ensures r == if AllDecode(w, blocks) then Some(Senders(w, blocks, |blocks|)) else None
  {
    var found: set<Address> := {};
    var i := 0;
    while i < |blocks|
      invariant 0 <= i <= |blocks| && found == Senders(w, blocks, i)
      invariant forall j :: 0 <= j < i ==> Decodes(w, blocks[j])
    {
      var next := BlockSenders(w, blocks[i]);
      if next.None? {
        return None;
      }
      found := found + next.value;
      i := i + 1;
    }
    r := Some(found);
  }

  /** The callers the policy admits as members; a validity-only room takes every signer of the batch. */
  function Members(w: World, input: BatchV5, approvers: set<Address>): Option<set<Address>>
  {
    if input.authorization != 1 then Some(approvers)
    else if AllDecode(w, input.blocks) then Some(approvers + Senders(w, input.blocks, |input.blocks|))
    else None
  }

  lemma DecodedStepAlike(w: World, policy: ExecutionPolicy, gadgets: bool, env: Env, raw: Bytes, tx: TxEnv,
                         s: BlockState)
    requires ValidPlatform(w.p) && w.decodeTx(raw, env.chainId) == Ok(tx)
    ensures TxStep(w, policy, gadgets, env, raw, Some(tx), s) == TxStep(w, policy, gadgets, env, raw, None, s)
  {
    assert Decode(w, env, raw, Some(tx)) == Decode(w, env, raw, None);
  }

  lemma {:induction false} DecodedTxsAlike(w: World, policy: ExecutionPolicy, gadgets: bool, input: BlockInput,
                                           decoded: seq<TxEnv>, db: Db, n: nat)
    requires ValidPlatform(w.p) && n <= |input.rawTxs| == |decoded|
    requires forall i :: 0 <= i < |decoded| ==> w.decodeTx(input.rawTxs[i], input.env.chainId) == Ok(decoded[i])
    ensures RunTxs(w, policy, gadgets, input, Some(decoded), db, n) == RunTxs(w, policy, gadgets, input, None, db, n)
  {
    if n > 0 {
      DecodedTxsAlike(w, policy, gadgets, input, decoded, db, n - 1);
      var before := RunTxs(w, policy, gadgets, input, None, db, n - 1);
      if before.Ok? {
        var raw := input.rawTxs[n - 1];
        DecodedStepAlike(w, policy, gadgets, input.env, raw, decoded[n - 1], before.value);
        RunOneMore(w, policy, gadgets, input, Some(decoded), db, n, before.value,
                   TxStep(w, policy, gadgets, input.env, raw, Some(decoded[n - 1]), before.value));
        RunOneMore(w, policy, gadgets, input, None, db, n, before.value,
                   TxStep(w, policy, gadgets, input.env, raw, None, before.value));
      }
    }
  }

  /** Handing the decoded transactions to the executor changes nothing. */
  lemma PredecodingChangesNothing(w: World, input: BlockInput, m: Mode, decoded: seq<TxEnv>, db: Db)
    requires ValidPlatform(w.p) && |input.rawTxs| == |decoded|
    requires forall i :: 0 <= i < |decoded| ==> w.decodeTx(input.rawTxs[i], input.env.chainId) == Ok(decoded[i])
    ensures ExecuteBlock(w, input, m.(decoded := Some(decoded)), db) == ExecuteBlock(w, input, m.(decoded := None), db)
  {
    var start := db.(blockHashes := HistoryMap(input.history, |input.history|));
    DecodedTxsAlike(w, EffectivePolicy(m.policy), m.gadgets, input, decoded, start, |input.rawTxs|);
  }

  // ----- The opening -----

  /** The policy and the state the blocks start from. */
  datatype Start = Start(policy: ExecutionPolicy, db: Db)

  /** From the written state to the policy and the prepared state. */
  ghost function Certify(p: Platform, room: Room, input: BatchV5, members: Option<set<Address>>, db: Db): Option<Start>
  {
    var v := input.policy;
    if members.None? || room.hashOf(v) != input.policyHash || !ShapeOk(v, members.value, room.usizeMax)
        || !StateOk(p, v, db.accounts)
    then None
    else
      var policy := Resolved(v, members.value, input.rosterChanged, room.precompiles);
      match InstallPrepared(p, db, policy.codeHashes)
      case None => None
      case Some(prepared) => Some(Start(policy, prepared))
  }

  ghost function OpenV5(w: World, room: Room, emptyRoot: B256, input: BatchV5): Option<Start>
  {
    var approvers, state := room.approvers(input), Opened(emptyRoot, input.listed);
    if !CountOk(input) || approvers.None? || state.None? then None
    else if RoomRoot(w, state.value, input.policy.stateCommitment) != Some(input.preRoot)
            || !room.opens(input, state.value.accounts) || !room.importProven(input) then None
    else
      match Written(w.p, input.policy, input.l1, input.fees, input.deposits, state.value)
      case None => None
      case Some(db) => Certify(w.p, room, input, Members(w, input, approvers.value), db)
  }

  // ----- The block loop and the close -----

  function HeaderError(room: Room, input: BatchV5, i: nat, b: ChainBlock, previous: U64): Option<StfError>
  {
    var number := input.startBlock + i;
    if number >= TWO_64 || b.env.timestamp < previous then Some(InvalidBatch(30))
    else if b.number != number || b.env.number != number
        || b.env.chainId != room.chainId(input.deployment, input.roomId)
            || b.env.gasLimit != input.policy.maxGas || |b.rawTxs| > input.policy.maxTransactions || b.env.coinbase != 0
            || b.env.baseFee != 0 || b.env.prevRandao != Zeros(32) || b.env.difficulty != 0 || b.env.excessBlobGas != 0
    then Some(InvalidBatch(31))
    else None
  }

  function RulesV5(room: Room, input: BatchV5, policy: ExecutionPolicy): Rules
  {
    Rules(input.roomId, (i: nat, b: ChainBlock, t: U64) => HeaderError(room, input, i, b, t),
          Mode(Some(policy), false, input.policy.stateCommitment, true, None), TWO_64)
  }

  function StartCarry(w: World, input: BatchV5, db: Db): Option<Carry>
  {
    match RoomRoot(w, db, input.policy.stateCommitment)
    case None => None
    case Some(root) => Some(Carry(db, root, 0, []))
  }

  function DataHash(p: Platform, blocks: seq<ChainBlock>, preRoot: B256): B256
  {
    p.keccak(Rlp.Encode(BatchData.BatchItem(blocks, preRoot)))
  }

  ghost predicate CloseOk(p: Platform, room: Room, input: BatchV5, s: Start, end: Carry)
  {
    && PostStateOk(p, s.policy, SnapshotOf(s.db.accounts), end.db.accounts)
    && end.root == input.postRoot && DataHash(p, input.blocks, input.preRoot) == input.dataHash
    && room.closes(input, end.db.accounts)
  }

  datatype Outcome = Outcome(start: Start, end: Carry)

  ghost function RunV5(w: World, exec: BlockExec, room: Room, input: BatchV5, s: Start): Option<Outcome>
  {
    match StartCarry(w, input, s.db)
    case None => None
    case Some(carry) =>
      match RunChain(exec, RulesV5(room, input, s.policy), input.blocks, carry, |input.blocks|)
      case Err(_) => None
      case Ok(end) => if CloseOk(w.p, room, input, s, end) then Some(Outcome(s, end)) else None
  }

  ghost function ExecuteV5(w: World, exec: BlockExec, room: Room, emptyRoot: B256, input: BatchV5): Option<Outcome>
  {
    match OpenV5(w, room, emptyRoot, input)
    case None => None
    case Some(s) => RunV5(w, exec, room, input, s)
  }

  // ----- The method -----

  method OpenRoom(w: World, room: Room, emptyRoot: B256, input: BatchV5) returns (r: Option<Start>)
    ensures r == OpenV5(w, room, emptyRoot, input)
  {
    var approvers := room.approvers(input);
    if !CountOk(input) || approvers.None? {
      return None;
    }
    var state := VerifyRoomLocal(emptyRoot, input.listed);
    if state.Err? {
      return None;
    }
    OpenedUnique(input.listed, state.value, Opened(emptyRoot, input.listed).value);
    if RoomRoot(w, state.value, input.policy.stateCommitment) != Some(input.preRoot) {
      return None;
    }
    if !room.opens(input, state.value.accounts) || !room.importProven(input) {
      return None;
    }
    var imported := ApplyImport(input.policy, input.l1, state.value);
    if imported.None? {
      return None;
    }
    var credited := ApplyDeposits(w.p, input.policy, input.fees, imported.value, input.deposits);
    if credited.None? {
      return None;
    }
    var members := approvers;
    if input.authorization == 1 {
      var senders := GatherSenders(w, input.blocks);
      if senders.None? {
        return None;
      }
      members := Some(approvers.value + senders.value);
    }
    r := BuildPolicy(w.p, room, input, members.value, credited.value);
  }

  method BuildPolicy(p: Platform, room: Room, input: BatchV5, members: set<Address>, db: Db) returns (r: Option<Start>)
    ensures r == Certify(p, room, input, Some(members), db)
  {
    var policy := Construct(p, room.hashOf, room.usizeMax, input.policy, input.policyHash, members, db.accounts,
                            input.rosterChanged,
                            room.precompiles);
    if policy.Err? {
      return None;
    }
    var prepared := InstallPrepared(p, db, policy.value.codeHashes);
    r := if prepared.None? then None else Some(Start(policy.value, prepared.value));
  }

  method ExecuteBatchV5(w: World, ghost exec: BlockExec, room: Room, emptyRoot: B256, input: BatchV5)
    returns (r: Option<Outcome>)
    requires ValidPlatform(w.p) && Implements(w, exec)
    ensures r == ExecuteV5(w, exec, room, emptyRoot, input)
  {
    var s := OpenRoom(w, room, emptyRoot, input);
    if s.None? {
      return None;
    }
    var carry := StartCarry(w, input, s.value.db);
    if carry.None? {
      return None;
    }
    var ran := RunBlocks(w, exec, RulesV5(room, input, s.value.policy), input.blocks, carry.value);
    if ran.Err? {
      return None;
    }
    var end := ran.value;
    var data := BatchData.CanonicalBatchData(input.blocks, input.preRoot);
    if !PostStateOk(w.p, s.value.policy, SnapshotOf(s.value.db.accounts), end.db.accounts) || end.root != input.postRoot
       || w.p.keccak(data) != input.dataHash || !room.closes(input, end.db.accounts) {
      return None;
    }
    r := Some(Outcome(s.value, end));
  }

  // ----- One batch -----

  /** What an accepted batch says about its opening. */
  lemma OpeningParts(w: World, room: Room, emptyRoot: B256, input: BatchV5) returns (state: Db, db: Db)
    requires OpenV5(w, room, emptyRoot, input).Some?
    ensures WellFormed(emptyRoot, input.listed, |input.listed|) && OpenedAs(input.listed, state)
    ensures Opened(emptyRoot, input.listed) == Some(state)
    ensures RoomRoot(w, state, input.policy.stateCommitment) == Some(input.preRoot)
    ensures Written(w.p, input.policy, input.l1, input.fees, input.deposits, state) == Some(db)
    ensures var s := OpenV5(w, room, emptyRoot, input).value;
            && ShapeOk(input.policy, s.policy.activeMembers, room.usizeMax) && StateOk(w.p, input.policy, db.accounts)
            && s.policy == Resolved(input.policy, s.policy.activeMembers, input.rosterChanged, room.precompiles)
            && InstallPrepared(w.p, db, s.policy.codeHashes) == Some(s.db)
  {
    state := Opened(emptyRoot, input.listed).value;
    db := Written(w.p, input.policy, input.l1, input.fees, input.deposits, state).value;
  }

  /** A batch over a contained state the constructor accepts closes in such a state, with the same envelope and cached
      runtimes. */
  lemma ContainmentAcrossBatches(w: World, v: PolicyV5, rules: Rules, blocks: seq<ChainBlock>, start: Carry,
                                 policy: ExecutionPolicy)
    requires ValidPlatform(w.p) && CodeOnlyFromCreation(w) && rules.mode.policy == Some(policy) && Contained(start.db)
    requires policy == Resolved(v, policy.activeMembers, policy.membershipChanged, policy.precompiles)
    requires StateOk(w.p, v, start.db.accounts) && RunChain(Exec(w), rules, blocks, start, |blocks|).Ok?
    requires PostStateOk(w.p, policy, SnapshotOf(start.db.accounts),
                         RunChain(Exec(w), rules, blocks, start, |blocks|).value.db.accounts)
    ensures var end := RunChain(Exec(w), rules, blocks, start, |blocks|).value.db;
            StateOk(w.p, v, end.accounts) && Contained(end) && SameFrame(start.db, end)
  {
    ExecKeeps(w);
    ChainKeeps(Exec(w), rules, blocks, start, |blocks|);
    var end := RunChain(Exec(w), rules, blocks, start, |blocks|).value.db;
    assert NoZeroSlots(end.accounts);
    TransitionKeepsStateOk(w.p, v, policy, start.db.accounts, end.accounts);
  }

  /** The envelope a witness declares is small. */
  ghost predicate SmallEnvelope(db: Db)
  {
    && db.accessAccounts.Some? && |db.accessAccounts.value| <= MAX_ACCOUNTS
    && db.accessStorage.Some?
    && forall a :: a in db.accessStorage.value ==> |db.accessStorage.value[a]| <= MAX_STORAGE_SLOTS
  }

  /** A state whose root determines its accounts: contained, its cache valid, its lists short. */
  ghost predicate RootBinds(p: Platform, db: Db)
  {
    Contained(db) && CacheValid(p, db) && SmallEnvelope(db)
  }

  lemma {:induction false} FewSlots(storage: seq<SlotWitness>)
    ensures |SlotSet(storage)| <= |storage|
  {
    if storage == [] {
      assert SlotSet(storage) == {};
    } else {
      var n := |storage| - 1;
      FewSlots(storage[..n]);
      assert SlotSet(storage) == SlotSet(storage[..n]) + {storage[n].slot};
    }
  }

  lemma {:induction false} FewAddresses(listed: seq<AccountWitness>, n: nat)
    requires n <= |listed|
    ensures |AddressSet(listed, n)| <= n
  {
    if n == 0 {
      assert AddressSet(listed, n) == {};
    } else {
      FewAddresses(listed, n - 1);
      assert AddressSet(listed, n) == AddressSet(listed, n - 1) + {listed[n - 1].address};
    }
  }

  lemma {:induction false} SlotCountGrows(listed: seq<AccountWitness>, i: nat, n: nat)
    requires i < n <= |listed|
    ensures |listed[i].storage| <= SlotCount(listed, n)
  {
    if i < n - 1 {
      SlotCountGrows(listed, i, n - 1);
    }
  }

  lemma OpenedIsSmall(emptyRoot: B256, listed: seq<AccountWitness>, db: Db)
    requires WellFormed(emptyRoot, listed, |listed|) && OpenedAs(listed, db)
    ensures SmallEnvelope(db)
  {
    FewAddresses(listed, |listed|);
    forall a | a in db.accessStorage.value
      ensures |db.accessStorage.value[a]| <= MAX_STORAGE_SLOTS
    {
      var i :| 0 <= i < |listed| && listed[i].address == a;
      assert AccountRepresented(db.accounts, db.accessStorage.value, listed[i]);
      FewSlots(listed[i].storage);
      SlotCountGrows(listed, i, |listed|);
    }
  }

  /** An opened state has no cache, so its root determines its accounts. */
  lemma OpenedRootBinds(p: Platform, emptyRoot: B256, listed: seq<AccountWitness>, db: Db)
    requires WellFormed(emptyRoot, listed, |listed|) && OpenedAs(listed, db)
    ensures RootBinds(p, db)
  {
    AcceptedIsContained(emptyRoot, listed, db);
    OpenedIsSmall(emptyRoot, listed, db);
  }

  /** The state the blocks start from: written and prepared, still contained, with the witness's envelope. */
  lemma StartRootBinds(w: World, room: Room, emptyRoot: B256, input: BatchV5)
    requires ValidPlatform(w.p) && OpenV5(w, room, emptyRoot, input).Some?
    ensures var s := OpenV5(w, room, emptyRoot, input).value;
            RootBinds(w.p, s.db) && StateOk(w.p, input.policy, s.db.accounts)
  {
    var state, db := OpeningParts(w, room, emptyRoot, input);
    var s := OpenV5(w, room, emptyRoot, input).value;
    OpenedIsSmall(emptyRoot, input.listed, state);
    WrittenSafe(w.p, input.policy, input.l1, input.fees, input.deposits, state);
    WrittenIsContained(w.p, emptyRoot, input.listed, input.policy, input.l1, input.fees, input.deposits, state);
    PreparedRootBinds(w.p, state, db, s.policy.codeHashes);
  }

  lemma PreparedRootBinds(p: Platform, state: Db, db: Db, frozen: map<Address, B256>)
    requires ValidPlatform(p) && SmallEnvelope(state) && SameButValues(state, db) && Contained(db)
    requires InstallPrepared(p, db, frozen).Some?
    ensures var next := InstallPrepared(p, db, frozen).value; next.accounts == db.accounts && RootBinds(p, next)
  {
    InstallKeepsCacheValid(p, db, frozen);
  }

  /** Every accepted batch, import and credits included, closes in a contained state that the constructor's state checks
      accept and whose root determines its accounts. */
  lemma ClosingIsContained(w: World, room: Room, emptyRoot: B256, input: BatchV5)
    requires ValidPlatform(w.p) && CodeOnlyFromCreation(w) && ExecuteV5(w, Exec(w), room, emptyRoot, input).Some?
    ensures var end := ExecuteV5(w, Exec(w), room, emptyRoot, input).value.end.db;
            StateOk(w.p, input.policy, end.accounts) && Contained(end) && RootBinds(w.p, end)
  {
    var state, db := OpeningParts(w, room, emptyRoot, input);
    var s := OpenV5(w, room, emptyRoot, input).value;
    StartRootBinds(w, room, emptyRoot, input);
    var carry := StartCarry(w, input, s.db).value;
    ContainmentAcrossBatches(w, input.policy, RulesV5(room, input, s.policy), input.blocks, carry, s.policy);
  }

  /** Block i has the next height, a time no earlier than the one before it, no more transactions than the policy takes,
      and otherwise the room's own environment. */
  predicate HeaderHolds(room: Room, input: BatchV5, i: nat, previous: U64)
    requires i < |input.blocks|
  {
    var b := input.blocks[i];
    && input.startBlock + i < TWO_64 && b.number == input.startBlock + i && previous <= b.env.timestamp
    && |b.rawTxs| <= input.policy.maxTransactions
    && b.env == RoomEnv(b.number, b.env.timestamp, input.policy.maxGas, room.chainId(input.deployment, input.roomId))
  }

  lemma HeaderExact(room: Room, input: BatchV5, i: nat, previous: U64)
    requires i < |input.blocks|
    ensures HeaderError(room, input, i, input.blocks[i], previous).None? <==> HeaderHolds(room, input, i, previous)
  {
  }

  /** Block i has the header the room fixes for it, and runs from a state whose root is the one recorded before it. */
  ghost predicate BlockChained(w: World, room: Room, input: BatchV5, s: Start, carry: Carry, i: nat)
    requires ValidPlatform(w.p) && i < |input.blocks|
  {
    var before := RunChain(Exec(w), RulesV5(room, input, s.policy), input.blocks, carry, i);
    && HeaderHolds(room, input, i, ClockBefore(input.blocks, carry, i))
    && before.Ok? && RoomRoot(w, before.value.db, input.policy.stateCommitment)
        == Some(RootBefore(input.blocks, carry, i))
  }

  lemma BlockIsChained(w: World, room: Room, input: BatchV5, s: Start, carry: Carry, i: nat)
    requires ValidPlatform(w.p) && i < |input.blocks| && StartCarry(w, input, s.db) == Some(carry)
    requires RunChain(Exec(w), RulesV5(room, input, s.policy), input.blocks, carry, |input.blocks|).Ok?
    ensures BlockChained(w, room, input, s, carry, i)
  {
    var rules := RulesV5(room, input, s.policy);
    ExecRoots(w);
    AcceptedBlock(Exec(w), rules, input.blocks, carry, i);
    HeaderExact(room, input, i, ClockBefore(input.blocks, carry, i));
    assert RootIn(w)(carry.db, rules.mode.commitment) == RoomRoot(w, carry.db, rules.mode.commitment);
    RootToRoot(RootIn(w), Exec(w), rules, input.blocks, carry, i);
    var before := RunChain(Exec(w), rules, input.blocks, carry, i).value;
    assert RootIn(w)(before.db, rules.mode.commitment) == RoomRoot(w, before.db, rules.mode.commitment);
  }

  /** The blocks of an accepted batch are chained root to root, and the published closing root is the closing
      state's. */
  lemma AcceptedIsChained(w: World, room: Room, emptyRoot: B256, input: BatchV5) returns (carry: Carry)
    requires ValidPlatform(w.p) && ExecuteV5(w, Exec(w), room, emptyRoot, input).Some?
    ensures var out := ExecuteV5(w, Exec(w), room, emptyRoot, input).value;
            && StartCarry(w, input, out.start.db) == Some(carry) && 0 < |input.blocks| <= input.policy.maxBlocks
            && (|input.blocks| == 1 ==> input.close) && input.endBlock == input.startBlock + |input.blocks| - 1
            && (forall i :: 0 <= i < |input.blocks| ==> BlockChained(w, room, input, out.start, carry, i))
            && RoomRoot(w, out.end.db, input.policy.stateCommitment) == Some(input.postRoot)
  {
    var out := ExecuteV5(w, Exec(w), room, emptyRoot, input).value;
    carry := StartCarry(w, input, out.start.db).value;
    forall i | 0 <= i < |input.blocks|
      ensures BlockChained(w, room, input, out.start, carry, i)
    {
      BlockIsChained(w, room, input, out.start, carry, i);
    }
    ClosingRoot(w, room, input, out.start, carry);
  }

  lemma ClosingRoot(w: World, room: Room, input: BatchV5, s: Start, carry: Carry)
    requires ValidPlatform(w.p) && StartCarry(w, input, s.db) == Some(carry)
    requires RunChain(Exec(w), RulesV5(room, input, s.policy), input.blocks, carry, |input.blocks|).Ok?
    ensures var end := RunChain(Exec(w), RulesV5(room, input, s.policy), input.blocks, carry, |input.blocks|).value;
            RoomRoot(w, end.db, input.policy.stateCommitment) == Some(end.root)
  {
    var rules := RulesV5(room, input, s.policy);
    ExecRoots(w);
    assert RootIn(w)(carry.db, rules.mode.commitment) == RoomRoot(w, carry.db, rules.mode.commitment);
    CarriedRootIsStateRoot(RootIn(w), Exec(w), rules, input.blocks, carry, |input.blocks|);
    var end := RunChain(Exec(w), rules, input.blocks, carry, |input.blocks|).value;
    assert RootIn(w)(end.db, rules.mode.commitment) == RoomRoot(w, end.db, rules.mode.commitment);
  }

  // ----- Runs of batches -----

  /** Accepted batches of one room with their outcomes: one policy, each opening at the root the one before it closed
      with. */
  ghost predicate IsRun(w: World, room: Room, emptyRoot: B256, v: PolicyV5, inputs: seq<BatchV5>, outs: seq<Outcome>)
    requires ValidPlatform(w.p)
  {
    && |outs| == |inputs| && SamePolicy(v, inputs) && Linked(inputs)
    && forall i {:trigger Produces(w, room, emptyRoot, inputs[i], outs[i])} :: 0 <= i < |inputs| ==>
         Produces(w, room, emptyRoot, inputs[i], outs[i])
  }

  ghost predicate Produces(w: World, room: Room, emptyRoot: B256, input: BatchV5, out: Outcome)
    requires ValidPlatform(w.p)
  {
    ExecuteV5(w, Exec(w), room, emptyRoot, input) == Some(out)
  }

  ghost predicate SamePolicy(v: PolicyV5, inputs: seq<BatchV5>)
  {
    forall i :: 0 <= i < |inputs| ==> inputs[i].policy == v
  }

  ghost predicate Linked(inputs: seq<BatchV5>)
  {
    forall i :: 0 < i < |inputs| ==> inputs[i].preRoot == inputs[i - 1].postRoot
  }

  /** A contained state is all visible. */
  lemma ContainedIsVisible(db: Db)
    requires Contained(db)
    ensures Visible(db.accounts) == db.accounts
  {
    forall a | a in db.accounts
      ensures !db.accounts[a].IsEmpty() && NonZero(db.accounts[a].storage) == db.accounts[a].storage
    {
      NonZeroExact(db.accounts[a]);
    }
  }

  lemma {:induction false} SubsetSmaller(s: set<int>, t: set<int>)
    requires s <= t
    ensures |s| <= |t|
  {
    if s != {} {
      var x := Member(s);
      SubsetSmaller(s - {x}, t - {x});
    }
  }

  lemma FewLiveSlots(storage: map<U256, U256>, allowed: set<int>)
    requires LiveKeys(storage) <= allowed
    ensures |LiveSlots(storage)| <= |allowed|
  {
    SelectSorted(AllKeys(storage), LiveKeys(storage));
    SubsetSmaller(LiveKeys(storage), allowed);
  }

  lemma FewLiveAccounts(accounts: Accounts, allowed: set<int>)
    requires LiveAddresses(accounts) <= allowed
    ensures |LiveAccounts(accounts)| <= |allowed|
  {
    SelectSorted(AllAddresses(accounts), LiveAddresses(accounts));
    SubsetSmaller(LiveAddresses(accounts), allowed);
  }

  /** What lies in a small envelope is short. */
  lemma EnclosedFits(db: Db)
    requires Enclosed(db) && SmallEnvelope(db)
    ensures FitsMemory(db.accounts)
  {
    FewLiveAccounts(db.accounts, db.accessAccounts.value);
    forall a | a in db.accounts
      ensures |LiveSlots(db.accounts[a].storage)| < TWO_64
    {
      var slots := if a in db.accessStorage.value then db.accessStorage.value[a] else {};
      assert forall k :: k in db.accounts[a].storage ==> SlotAllowed(db, a, k);
      FewLiveSlots(db.accounts[a].storage, slots);
    }
  }

  /** Some string, trie or storage of the two states collides under the commitment. */
  ghost predicate RootsCollide(w: World, mode: byte, x: Accounts, y: Accounts)
  {
    if mode == 1 then Collide(w.p.keccak, RootPreimages(w.p, w.tags, x), RootPreimages(w.p, w.tags, y))
    else TriesCollide(w.p, x, y)
  }

  /** Under either commitment, states with one root have the same accounts, unless hashes or tries collide. */
  lemma SameRootSameAccounts(w: World, mode: byte, x: Db, y: Db)
    requires mode <= 1 && RootBinds(w.p, x) && RootBinds(w.p, y) && RoomRoot(w, x, mode) == RoomRoot(w, y, mode)
    ensures x.accounts == y.accounts || RootsCollide(w, mode, x.accounts, y.accounts)
  {
    if mode == 0 {
      TrieRootBinding(w.p, x, y);
    } else {
      EnclosedFits(x);
      EnclosedFits(y);
      SparseRootBinding(w.p, w.tags, x.accounts, y.accounts);
      ContainedIsVisible(x);
      ContainedIsVisible(y);
    }
  }

  /** What acceptance says of a batch: its witness opens a state with the previous root; its closing state passes the
      constructor's state checks, is contained and has the published root. */
  ghost predicate Established(w: World, emptyRoot: B256, input: BatchV5, closing: Db)
  {
    var v, opening := input.policy, Opened(emptyRoot, input.listed);
    && ImportsOk(v) && v.stateCommitment <= 1
    && opening.Some? && RootBinds(w.p, opening.value)
    && RoomRoot(w, opening.value, v.stateCommitment) == Some(input.preRoot)
    && StateOk(w.p, v, closing.accounts) && RootBinds(w.p, closing)
    && RoomRoot(w, closing, v.stateCommitment) == Some(input.postRoot)
  }

  lemma AcceptedIsEstablished(w: World, room: Room, emptyRoot: B256, input: BatchV5)
    requires ValidPlatform(w.p) && CodeOnlyFromCreation(w) && ExecuteV5(w, Exec(w), room, emptyRoot, input).Some?
    ensures Established(w, emptyRoot, input, ExecuteV5(w, Exec(w), room, emptyRoot, input).value.end.db)
  {
    var state, db := OpeningParts(w, room, emptyRoot, input);
    OpenedRootBinds(w.p, emptyRoot, input.listed, state);
    ClosingIsContained(w, room, emptyRoot, input);
    var carry := AcceptedIsChained(w, room, emptyRoot, input);
  }

  /** The witness opens the very accounts of the state before it, unless hashes or tries collide. */
  ghost predicate Continues(w: World, emptyRoot: B256, mode: byte, closing: Db, listed: seq<AccountWitness>)
  {
    var opening := Opened(emptyRoot, listed);
    opening.Some?
    && (|| opening.value.accounts == closing.accounts
        || RootsCollide(w, mode, closing.accounts, opening.value.accounts))
  }

  /** Over every run of accepted batches, with imports and credits between them: every closing state passes the
      constructor's state checks, is contained and has the published root, and every batch continues from the accounts
      the one before it closed with, unless hashes or tries collide. */
  lemma RunsStayContained(w: World, room: Room, emptyRoot: B256, v: PolicyV5, inputs: seq<BatchV5>, outs: seq<Outcome>,
                          i: nat)
    requires ValidPlatform(w.p) && CodeOnlyFromCreation(w) && IsRun(w, room, emptyRoot, v, inputs, outs)
    requires i < |inputs|
    ensures StateOk(w.p, v, outs[i].end.db.accounts) && Contained(outs[i].end.db)
    ensures RoomRoot(w, outs[i].end.db, v.stateCommitment) == Some(inputs[i].postRoot)
    ensures i > 0 ==> Continues(w, emptyRoot, v.stateCommitment, outs[i - 1].end.db, inputs[i].listed)
  {
    RunIsEstablished(w, room, emptyRoot, v, inputs, outs, i);
    if i > 0 {
      RunContinues(w, room, emptyRoot, v, inputs, outs, i);
    }
  }

  lemma RunContinues(w: World, room: Room, emptyRoot: B256, v: PolicyV5, inputs: seq<BatchV5>, outs: seq<Outcome>,
                     i: nat)
    requires ValidPlatform(w.p) && CodeOnlyFromCreation(w) && IsRun(w, room, emptyRoot, v, inputs, outs)
    requires 0 < i < |inputs|
    ensures Continues(w, emptyRoot, v.stateCommitment, outs[i - 1].end.db, inputs[i].listed)
  {
    RunCloses(w, room, emptyRoot, v, inputs, outs, i - 1);
    var opening := RunOpens(w, room, emptyRoot, v, inputs, outs, i);
    assert inputs[i].preRoot == inputs[i - 1].postRoot;
    SameRootSameAccounts(w, v.stateCommitment, outs[i - 1].end.db, opening);
  }

  lemma RunCloses(w: World, room: Room, emptyRoot: B256, v: PolicyV5, inputs: seq<BatchV5>, outs: seq<Outcome>, i: nat)
    requires ValidPlatform(w.p) && CodeOnlyFromCreation(w) && IsRun(w, room, emptyRoot, v, inputs, outs)
    requires i < |inputs|
    ensures v.stateCommitment <= 1 && RootBinds(w.p, outs[i].end.db)
    ensures RoomRoot(w, outs[i].end.db, v.stateCommitment) == Some(inputs[i].postRoot)
  {
    RunIsEstablished(w, room, emptyRoot, v, inputs, outs, i);
  }

  lemma RunOpens(w: World, room: Room, emptyRoot: B256, v: PolicyV5, inputs: seq<BatchV5>, outs: seq<Outcome>, i: nat)
    returns (opening: Db)
    requires ValidPlatform(w.p) && CodeOnlyFromCreation(w) && IsRun(w, room, emptyRoot, v, inputs, outs)
    requires i < |inputs|
    ensures Opened(emptyRoot, inputs[i].listed) == Some(opening) && RootBinds(w.p, opening)
    ensures RoomRoot(w, opening, v.stateCommitment) == Some(inputs[i].preRoot)
  {
    RunIsEstablished(w, room, emptyRoot, v, inputs, outs, i);
    opening := Opened(emptyRoot, inputs[i].listed).value;
  }

  lemma RunIsEstablished(w: World, room: Room, emptyRoot: B256, v: PolicyV5, inputs: seq<BatchV5>, outs: seq<Outcome>,
                         i: nat)
    requires ValidPlatform(w.p) && CodeOnlyFromCreation(w) && IsRun(w, room, emptyRoot, v, inputs, outs)
    requires i < |inputs|
    ensures Established(w, emptyRoot, inputs[i], outs[i].end.db)
  {
    assert Produces(w, room, emptyRoot, inputs[i], outs[i]);
    AcceptedIsEstablished(w, room, emptyRoot, inputs[i]);
  }

  /** After a run, a state opened at the last closing root has the closing accounts, unless hashes or tries collide. */
  lemma NextOpensClosing(w: World, room: Room, emptyRoot: B256, v: PolicyV5, inputs: seq<BatchV5>, outs: seq<Outcome>,
                         i: nat, listed: seq<AccountWitness>, opening: Db)
    requires ValidPlatform(w.p) && CodeOnlyFromCreation(w) && IsRun(w, room, emptyRoot, v, inputs, outs)
    requires i < |inputs| && WellFormed(emptyRoot, listed, |listed|) && OpenedAs(listed, opening)
    requires RoomRoot(w, opening, v.stateCommitment) == Some(inputs[i].postRoot)
    ensures opening.accounts == outs[i].end.db.accounts
         || RootsCollide(w, v.stateCommitment, outs[i].end.db.accounts, opening.accounts)
  {
    RunIsEstablished(w, room, emptyRoot, v, inputs, outs, i);
    OpenedRootBinds(w.p, emptyRoot, listed, opening);
    SameRootSameAccounts(w, v.stateCommitment, outs[i].end.db, opening);
  }

  /** After any run, a further batch that opens at the last closing root opens the closing accounts, and its import and
      credits can spoil the constructor's state checks only by a token credit outside the declared namespaces. */
  lemma NextBatchIsAdmissible(w: World, room: Room, emptyRoot: B256, v: PolicyV5, inputs: seq<BatchV5>,
                              outs: seq<Outcome>, i: nat, next: BatchV5, opening: Db)
    requires ValidPlatform(w.p) && CodeOnlyFromCreation(w) && IsRun(w, room, emptyRoot, v, inputs, outs)
    requires i < |inputs| && WellFormed(emptyRoot, next.listed, |next.listed|) && OpenedAs(next.listed, opening)
    requires RoomRoot(w, opening, v.stateCommitment) == Some(inputs[i].postRoot)
    requires Written(w.p, v, next.l1, next.fees, next.deposits, opening).Some?
    ensures || RootsCollide(w, v.stateCommitment, outs[i].end.db.accounts, opening.accounts)
            || (&& opening.accounts == outs[i].end.db.accounts
                && (StateOk(w.p, v, Written(w.p, v, next.l1, next.fees, next.deposits, opening).value.accounts)
                    <==> CreditsDeclared(w.p, v, next.fees, next.deposits)))
  {
    NextOpensClosing(w, room, emptyRoot, v, inputs, outs, i, next.listed, opening);
    if opening.accounts == outs[i].end.db.accounts {
      RunIsEstablished(w, room, emptyRoot, v, inputs, outs, i);
      WrittenStateOk(w.p, v, next.l1, next.fees, next.deposits, opening);
    }
  }
}
