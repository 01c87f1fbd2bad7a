/** Batch execution: one authenticated opening state, system credits, one to four blocks, and the closing checks. */
module Batch {
  import opened Bytes
  import opened State
  import opened Policy
  import opened Compact
  import opened Inbox
  import opened FromInput
  import opened Block
  import opened BlockData
  import opened Chain
  import opened ColdShapes
  import opened ColdState
  import opened ColdRoom
  import opened Modular
  import BatchDataV4
  import Rlp

  const MAX_BATCH_BLOCKS: nat := 4

  datatype BatchBlock = BatchBlock(number: U64, env: Env, rawTxs: seq<Bytes>, expectedRoot: B256)

  /** Member slots as bit masks: active and ever used, before and after the batch. */
  datatype Masks = Masks(active: nat, preUsed: nat, postActive: nat, used: nat)

  /** What a composed batch brings to be bound to a cold proof. */
  datatype ColdLink = ColdLink(
    domains: Domains,
    runtimeDomains: RuntimeDomains,
    cold: ColdJournal,
    runtime: seq<RuntimeCode>,
    access: seq<Access>,
    refresh: seq<Refresh>)

  /** `rest` is what only the settlement functions read. */
  datatype BatchInput = BatchInput(
    blocks: seq<BatchBlock>,
    close: bool,
    masks: Masks,
    inboxStart: U64,
    inboxEnd: U64,
    expectedDataHash: B256,
    identity: BatchIdentity,
    link: Option<ColdLink>,
    deploymentId: B256,
    roomId: U64,
    l2Start: U64,
    previousTimestamp: U64,
    prevStateRoot: B256,
    listed: seq<AccountWitness>,
    inboxEntries: nat,
    rest: Bytes)

  /** The parts of a batch decided elsewhere: membership before the state is opened; the parsed preset and roster; the
      exit program; the credits of each inbox entry; the derived settlement. */
  datatype Settlement = Settlement(
    preflight: BatchInput -> Option<int>,
    preset: BatchInput -> Option<Preset>,
    roster: BatchInput -> Roster,
    openExits: (BatchInput, ExecutionPolicy) -> Option<int>,
    entryCredits: (BatchInput, nat) -> Result<seq<Credit>, int>,
    finishInbox: BatchInput -> Option<int>,
    chainId: (B256, U64) -> U64,
    settle: (BatchInput, Accounts) -> Result<Bytes, int>)

  datatype BatchJournal = BatchJournal(
    l2Start: U64,
    l2End: int,
    previousTimestamp: U64,
    finalTimestamp: U64,
    prevStateRoot: B256,
    postStateRoot: B256,
    blocks: seq<BlockRecord>,
    settled: Bytes)

  // ----- The opening -----

  /** Apply the credits of the first n inbox entries. */
  function ApplyInbox(p: Platform, s: Settlement, input: BatchInput, db: Db, n: nat): Result<Db, StfError>
  {
    if n == 0 then Ok(db)
    else
      var before := ApplyInbox(p, s, input, db, n - 1);
      if before.Err? then before
      else
        var credits := s.entryCredits(input, n - 1);
        if credits.Err? then Err(StfError.Settlement(credits.error))
        else
          var next := ApplyCredits(p, before.value, credits.value);
          if next.None? then Err(StfError.Settlement(0)) else Ok(next.value)
  }

  datatype Opening = Opening(policy: ExecutionPolicy, db: Db, compactRoot: B256)

  function PolicyOf(preset: Preset, roster: Roster): ExecutionPolicy
  {
    preset.policy.(activeMembers := ActiveAccounts(roster.slots, |roster.slots|))
  }

  function CountError(input: BatchInput): Option<StfError>
  {
    if !(1 <= |input.blocks| <= MAX_BATCH_BLOCKS) then Some(InvalidBatch(1))
    else if |input.blocks| == 1 && !input.close then Some(InvalidBatch(2))
    else None
  }

  predicate HasBit(mask: nat, i: nat)
  {
    mask / Exp2(i) % 2 == 1
  }

  /** Seven slots, and every active slot is a used one. */
  predicate MasksOk(m: Masks)
  {
    && m.active < 128 && m.preUsed < 128 && m.postActive < 128 && m.used < 128
    && forall i :: 0 <= i < ROSTER_SLOTS ==>
      (HasBit(m.active, i) ==> HasBit(m.preUsed, i)) && (HasBit(m.postActive, i) ==> HasBit(m.used, i))
  }

  function DataHash(p: Platform, input: BatchInput): B256
  {
    p.keccak(Rlp.Encode(BatchDataV4.ShortBatch(ChainBlocks(input), input.prevStateRoot)))
  }

  /** The checks before the state is opened. */
  function Preflight(p: Platform, s: Settlement, input: BatchInput): Option<StfError>
  {
    var count, early := CountError(input), s.preflight(input);
    if count.Some? then count
    else if !MasksOk(input.masks) then Some(InvalidBatch(9))
    else if input.inboxEnd < input.inboxStart then Some(InvalidBatch(10))
    else if early.Some? then Some(StfError.Settlement(early.value))
    else if DataHash(p, input) != input.expectedDataHash then Some(InvalidBatch(11))
    else None
  }

  ghost predicate LinkAccepted(p: Platform, identity: BatchIdentity, link: Option<ColdLink>, accounts: Accounts)
  {
    link.Some? ==>
      var l := link.value;
      LinkOk(p, l.domains, l.runtimeDomains, identity, l.cold, l.runtime, l.access, l.refresh, accounts)
  }

  /** From the authenticated state to the state after the inbox. */
  ghost function AfterConstructor(p: Platform, s: Settlement, input: BatchInput, policy: ExecutionPolicy, db: Db,
                                  root: B256): Result<Opening, StfError>
  {
    var exits := s.openExits(input, policy);
    if exits.Some? then Err(StfError.Settlement(exits.value))
    else
      var credited := ApplyInbox(p, s, input, db, input.inboxEntries);
      if credited.Err? then Err(credited.error)
      else
        var unfinished := s.finishInbox(input);
        if unfinished.Some? then Err(StfError.Settlement(unfinished.value))
        else Ok(Opening(policy, credited.value, root))
  }

  ghost function Open(p: Platform, s: Settlement, emptyRoot: B256, input: BatchInput): Result<Opening, StfError>
  {
    var early := Preflight(p, s, input);
    if early.Some? then Err(early.value)
    else
      var state := Opened(emptyRoot, input.listed);
      if state.None? then Err(CompactWitness)
      else
        var root := StateRoot(p, state.value);
        var preset, roster := s.preset(input), s.roster(input);
        if root != input.prevStateRoot then Err(CompactWitness)
        else if !LinkAccepted(p, input.identity, input.link, state.value.accounts) then Err(ColdLinkRejected)
        else if preset.None? || !Accepts(p, preset.value, roster, input.listed, state.value.accounts)
        then Err(ConstructorRejected)
        else AfterConstructor(p, s, input, PolicyOf(preset.value, roster), state.value, root)
  }

  // ----- The block loop -----

  function ToChain(b: BatchBlock): ChainBlock
  {
    ChainBlock(b.number, b.env, b.rawTxs, b.expectedRoot, [])
  }

  function ChainBlocks(input: BatchInput): (r: seq<ChainBlock>)
    ensures |r| == |input.blocks|
  {
    seq(|input.blocks|, i requires 0 <= i < |input.blocks| => ToChain(input.blocks[i]))
  }

  /** The deterministic room profile: contiguous heights, an ordered clock, the room's chain id and a fixed
      environment. */
  function HeaderError(s: Settlement, input: BatchInput, gasCap: U64, i: nat, b: ChainBlock,
                       previous: U64): Option<StfError>
  {
    if input.l2Start + i >= TWO_64 then Some(InvalidBatch(3))
    else if b.number != input.l2Start + i || b.env.number != input.l2Start + i then Some(InvalidBatch(4))
    else if b.env.timestamp < previous then Some(InvalidBatch(5))
    else if b.env.chainId != s.chainId(input.deploymentId, input.roomId) then Some(InvalidBatch(6))
    else if b.env.gasLimit != gasCap || b.env.coinbase != 0 || b.env.baseFee != 0 || b.env.prevRandao != Zeros(32)
            || b.env.difficulty != 0 || b.env.excessBlobGas != 0 then Some(InvalidBatch(7))
    else None
  }

  function RulesFor(s: Settlement, input: BatchInput, policy: ExecutionPolicy, cached: bool, verify: bool): Rules
  {
    Rules(input.roomId, (i: nat, b: ChainBlock, t: U64) => HeaderError(s, input, policy.maxGasPerBlock, i, b, t),
          Mode(Some(policy), verify, 0, cached, None), policy.maxGasPerBlock)
  }

  /** Install the prepared-code cache, or clear it. */
  function Prepare(p: Platform, policy: ExecutionPolicy, db: Db, cached: bool): Option<Db>
  {
    if cached then InstallPrepared(p, db, policy.codeHashes) else Some(ClearPrepared(db))
  }

  /** An empty inbox reuses the root authenticated at the opening. */
  function StartCarry(p: Platform, input: BatchInput, root: B256, db: Db): Carry
  {
    Carry(db, if input.inboxEntries == 0 then root else StateRoot(p, db), input.previousTimestamp, [])
  }

  // ----- The closing -----

  function Close(p: Platform, s: Settlement, input: BatchInput, policy: ExecutionPolicy, snapshot: Snapshot,
                 ran: Result<Carry, StfError>): Result<BatchJournal, StfError>
  {
    if ran.Err? then Err(ran.error)
    else if input.l2Start + |input.blocks| >= TWO_64 then Err(InvalidBatch(8))
    else if !PostStateOk(p, policy, snapshot, ran.value.db.accounts) then Err(PostStateRejected)
    else
      var settled := s.settle(input, ran.value.db.accounts);
      if settled.Err? then Err(StfError.Settlement(settled.error))
      else Ok(BatchJournal(input.l2Start, input.l2Start + |input.blocks| - 1, input.previousTimestamp,
                           ran.value.timestamp,
                           input.prevStateRoot, ran.value.root, ran.value.journals, settled.value))
  }

  /** Everything after the opening. */
  function RunOpened(p: Platform, exec: BlockExec, s: Settlement, input: BatchInput, o: Opening, cached: bool,
                     verify: bool): Result<BatchJournal, StfError>
  {
    var prepared := Prepare(p, o.policy, o.db, cached);
    if prepared.None? then Err(InstallRejected)
    else
      var blocks := ChainBlocks(input);
      Close(p, s, input, o.policy, SnapshotOf(prepared.value.accounts),
            RunChain(exec, RulesFor(s, input, o.policy, cached, verify), blocks,
                     StartCarry(p, input, o.compactRoot, prepared.value), |blocks|))
  }

  ghost function ExecuteBatch(p: Platform, exec: BlockExec, s: Settlement, emptyRoot: B256, input: BatchInput,
                              cached: bool, verify: bool): Result<BatchJournal, StfError>
  {
    var opening := Open(p, s, emptyRoot, input);
    if opening.Err? then Err(opening.error) else RunOpened(p, exec, s, input, opening.value, cached, verify)
  }

  // ----- The method -----

  method CreditInbox(p: Platform, s: Settlement, input: BatchInput, db: Db) returns (r: Result<Db, StfError>)
    ensures r == ApplyInbox(p, s, input, db, input.inboxEntries)
  {
    var state := db;
    var i := 0;
    while i < input.inboxEntries
      invariant 0 <= i <= input.inboxEntries
      invariant ApplyInbox(p, s, input, db, i) == Ok(state)
    {
      var credits := s.entryCredits(input, i);
      if credits.Err? {
        InboxFailureStays(p, s, input, db, i + 1, input.inboxEntries);
        return Err(StfError.Settlement(credits.error));
      }
      var next := ApplyCredits(p, state, credits.value);
      if next.None? {
        InboxFailureStays(p, s, input, db, i + 1, input.inboxEntries);
        return Err(StfError.Settlement(0));
      }
      state := next.value;
      i := i + 1;
    }
    r := Ok(state);
  }

  lemma {:induction false} InboxFailureStays(p: Platform, s: Settlement, input: BatchInput, db: Db, i: nat, n: nat)
    requires i <= n && ApplyInbox(p, s, input, db, i).Err?
    ensures ApplyInbox(p, s, input, db, n) == ApplyInbox(p, s, input, db, i)
  {
    if i < n {
      InboxFailureStays(p, s, input, db, i, n - 1);
    }
  }

  method CheckPreflight(p: Platform, s: Settlement, input: BatchInput) returns (e: Option<StfError>)
    ensures e == Preflight(p, s, input)
  {
    e := CountError(input);
    if e.Some? {
      return;
    }
    if !MasksOk(input.masks) {
      return Some(InvalidBatch(9));
    }
    if input.inboxEnd < input.inboxStart {
      return Some(InvalidBatch(10));
    }
    var early := s.preflight(input);
    if early.Some? {
      return Some(StfError.Settlement(early.value));
    }
    var data := BatchDataV4.CanonicalBatchBytes(ChainBlocks(input), input.prevStateRoot);
    if p.keccak(data) != input.expectedDataHash {
      return Some(InvalidBatch(11));
    }
  }

  method CheckLink(p: Platform, identity: BatchIdentity, link: Option<ColdLink>, accounts: Accounts) returns (ok: bool)
    ensures ok <==> LinkAccepted(p, identity, link, accounts)
  {
    if link.None? {
      return true;
    }
    var l := link.value;
    ok := ValidateComposedLink(p, l.domains, l.runtimeDomains, identity, l.cold, l.runtime, l.access, l.refresh,
                               accounts);
  }

  method OpenState(p: Platform, s: Settlement, emptyRoot: B256, input: BatchInput)
    returns (r: Result<Opening, StfError>)
    ensures r == Open(p, s, emptyRoot, input)
  {
    var early := CheckPreflight(p, s, input);
    if early.Some? {
      return Err(early.value);
    }
    var room := VerifyRoomLocal(emptyRoot, input.listed);
    if room.Err? {
      return Err(CompactWitness);
    }
    OpenedUnique(input.listed, room.value, Opened(emptyRoot, input.listed).value);
    var root := StateRoot(p, room.value);
    if root != input.prevStateRoot {
      return Err(CompactWitness);
    }
    var linked := CheckLink(p, input.identity, input.link, room.value.accounts);
    if !linked {
      return Err(ColdLinkRejected);
    }
    var preset, roster := s.preset(input), s.roster(input);
    if preset.None? {
      return Err(ConstructorRejected);
    }
    var policy := Construct(p, preset.value, roster, input.listed, room.value.accounts);
    if policy.Err? {
      return Err(ConstructorRejected);
    }
    var exits := s.openExits(input, policy.value);
    if exits.Some? {
      return Err(StfError.Settlement(exits.value));
    }
    var credited := CreditInbox(p, s, input, room.value);
    if credited.Err? {
      return Err(credited.error);
    }
    var unfinished := s.finishInbox(input);
    if unfinished.Some? {
      return Err(StfError.Settlement(unfinished.value));
    }
    r := Ok(Opening(policy.value, credited.value, root));
  }

  method ExecuteWithRuntimeCache(w: World, ghost exec: BlockExec, s: Settlement, emptyRoot: B256, input: BatchInput,
                                 cached: bool)
    returns (r: Result<BatchJournal, StfError>)
    requires ValidPlatform(w.p) && Implements(w, exec)
    ensures r == ExecuteBatch(w.p, exec, s, emptyRoot, input, cached, false)
  {
    var opening := OpenState(w.p, s, emptyRoot, input);
    if opening.Err? {
      return Err(opening.error);
    }
    var o := opening.value;
    var prepared := Prepare(w.p, o.policy, o.db, cached);
    if prepared.None? {
      return Err(InstallRejected);
    }
    var snapshot := SnapshotOf(prepared.value.accounts);
    var start := StartCarry(w.p, input, o.compactRoot, prepared.value);
    var ran := RunBlocks(w, exec, RulesFor(s, input, o.policy, cached, false), ChainBlocks(input), start);
    r := Close(w.p, s, input, o.policy, snapshot, ran);
  }
}
