/** What an accepted batch establishes, and why production and reference execution agree. */
module BatchLaws {
  import opened Bytes
  import opened State
  import opened StateLaws
  import opened Policy
  import opened Compact
  import opened Gadgets
  import opened Inbox
  import opened FromInput
  import opened Block
  import opened BlockData
  import opened BlockLaws
  import opened Chain
  import opened Batch
  import opened BitFields
  import opened Modular
  import opened ColdLimits
  import opened ColdState
  import opened ColdRoom
  import BatchDataV4
  import Rlp
  import Evm

  // ----- The opening -----

  lemma {:induction false} InboxKeeps(p: Platform, s: Settlement, input: BatchInput, db: Db, n: nat)
    requires ApplyInbox(p, s, input, db, n).Ok?
    ensures SameButValues(db, ApplyInbox(p, s, input, db, n).value)
    ensures Contained(db) ==> Contained(ApplyInbox(p, s, input, db, n).value)
    ensures n == 0 ==> ApplyInbox(p, s, input, db, n).value == db
  {
    if n > 0 {
      InboxKeeps(p, s, input, db, n - 1);
      var before := ApplyInbox(p, s, input, db, n - 1).value;
      CreditsKeep(p, before, s.entryCredits(input, n - 1).value);
    }
  }

  /** What the first n inbox entries add to a balance or slot. */
  function InboxGrants(p: Platform, s: Settlement, input: BatchInput, cell: Cell, n: nat): nat
  {
    if n == 0 then 0
    else
      InboxGrants(p, s, input, cell, n - 1)
      + match s.entryCredits(input, n - 1)
        case Ok(credits) => Grants(p, credits, cell)
        case Err(_) => 0
  }

  /** Every entry has its credits, and every balance and slot grows by exactly what the entries add to it. */
  lemma {:induction false} InboxExact(p: Platform, s: Settlement, input: BatchInput, db: Db, n: nat, cell: Cell)
    requires ApplyInbox(p, s, input, db, n).Ok?
    ensures forall i :: 0 <= i < n ==> s.entryCredits(input, i).Ok?
    ensures ValueAt(ApplyInbox(p, s, input, db, n).value.accounts, cell)
         == ValueAt(db.accounts, cell) + InboxGrants(p, s, input, cell, n)
  {
    if n > 0 {
      InboxExact(p, s, input, db, n - 1, cell);
      CreditsExact(p, ApplyInbox(p, s, input, db, n - 1).value, s.entryCredits(input, n - 1).value, cell);
    }
  }

  /** An opened batch has member masks of seven slots in which every active slot is a used one, and an inbox range that
      does not run backwards. */
  lemma OpenedMasks(p: Platform, s: Settlement, emptyRoot: B256, input: BatchInput, i: nat)
    requires Open(p, s, emptyRoot, input).Ok?
    ensures input.inboxStart <= input.inboxEnd
    ensures var m := input.masks;
            && (BitOf(m.active, i) ==> i < ROSTER_SLOTS && BitOf(m.preUsed, i))
            && (BitOf(m.postActive, i) ==> i < ROSTER_SLOTS && BitOf(m.used, i))
  {
    var m := input.masks;
    assert Exp2(ROSTER_SLOTS) == 128;
    if ROSTER_SLOTS <= i {
      HighBitClear(m.active, ROSTER_SLOTS, i);
      HighBitClear(m.postActive, ROSTER_SLOTS, i);
    } else {
      assert HasBit(m.active, i) == BitOf(m.active, i) && HasBit(m.postActive, i) == BitOf(m.postActive, i);
    }
  }

  /** Nothing that settlement decides was skipped: an opened batch passed the membership, exit and inbox checks. */
  lemma SettlementOpened(p: Platform, s: Settlement, emptyRoot: B256, input: BatchInput)
    requires Open(p, s, emptyRoot, input).Ok?
    ensures s.preflight(input).None? && s.finishInbox(input).None?
    ensures s.openExits(input, Open(p, s, emptyRoot, input).value.policy).None?
  {
  }

  /** The members of an opened batch are exactly the accounts of the roster slots whose active bit is set. */
  lemma OpenedMembers(p: Platform, s: Settlement, emptyRoot: B256, input: BatchInput, m: Address)
    requires Open(p, s, emptyRoot, input).Ok?
    ensures var roster := s.roster(input);
            m in Open(p, s, emptyRoot, input).value.policy.activeMembers <==>
              exists i :: 0 <= i < |roster.slots| && BitOf(roster.activeMask, i) && roster.slots[i].account == m
  {
    var state, preset := OpeningParts(p, s, emptyRoot, input);
    RosterMembers(s.roster(input), m);
  }

  lemma RosterMembers(roster: Roster, m: Address)
    requires RosterOk(roster.root, roster.slots, roster.expected, roster.activeMask, roster.usedMask)
    ensures m in ActiveAccounts(roster.slots, |roster.slots|) <==>
              exists i :: 0 <= i < |roster.slots| && BitOf(roster.activeMask, i) && roster.slots[i].account == m
  {
    forall i | 0 <= i < |roster.slots|
      ensures BitOf(roster.activeMask, i) <==> roster.slots[i].state == 1
    {
      RosterBits(roster.slots, |roster.slots|, i);
    }
  }

  /** A valid opening: contained, nothing latched or cached, its root known, its pinned code in place. */
  ghost predicate GoodOpening(p: Platform, input: BatchInput, o: Opening)
  {
    && Contained(o.db) && o.db.violation.None? && ClearPrepared(o.db) == o.db
    && (input.inboxEntries == 0 ==> StateRoot(p, o.db) == o.compactRoot)
    && InstallPrepared(p, o.db, o.policy.codeHashes).Some?
    && PresetOk(o.policy) && (o.policy.certified ==> NoOtherCode(o.policy.codeHashes, o.db.accounts))
  }

  lemma OpeningParts(p: Platform, s: Settlement, emptyRoot: B256, input: BatchInput) returns (state: Db, preset: Preset)
    requires Open(p, s, emptyRoot, input).Ok?
    ensures WellFormed(emptyRoot, input.listed, |input.listed|) && OpenedAs(input.listed, state)
    ensures CountError(input).None? && s.preset(input) == Some(preset)
    ensures Accepts(p, preset, s.roster(input), input.listed, state.accounts)
    ensures ApplyInbox(p, s, input, state, input.inboxEntries).Ok? && StateRoot(p, state) == input.prevStateRoot
    ensures LinkAccepted(p, input.identity, input.link, state.accounts) && DataHash(p, input) == input.expectedDataHash
    ensures Open(p, s, emptyRoot, input).value
         == Opening(PolicyOf(preset, s.roster(input)), ApplyInbox(p, s, input, state, input.inboxEntries).value,
                    StateRoot(p, state))
  {
    state, preset := Opened(emptyRoot, input.listed).value, s.preset(input).value;
  }

  lemma InstallsAfterCredits(p: Platform, preset: Preset, roster: Roster, listed: seq<AccountWitness>, state: Db,
                             after: Db)
    requires Accepts(p, preset, roster, listed, state.accounts) && SameButValues(state, after)
    ensures InstallPrepared(p, after, preset.policy.codeHashes).Some? && PresetOk(preset.policy)
    ensures preset.policy.certified ==> NoOtherCode(preset.policy.codeHashes, after.accounts)
  {
    OpeningCode(preset.policy.codeHashes, state, after);
    InstallCannotFail(p, preset, roster, listed, state.accounts, after);
  }

  /** Once the constructor accepted, the opening is good; in particular the cache installation cannot fail. */
  lemma OpeningIsGood(p: Platform, s: Settlement, emptyRoot: B256, input: BatchInput)
    requires Open(p, s, emptyRoot, input).Ok?
    ensures GoodOpening(p, input, Open(p, s, emptyRoot, input).value)
  {
    var state, preset := OpeningParts(p, s, emptyRoot, input);
    AcceptedIsContained(emptyRoot, input.listed, state);
    InboxKeeps(p, s, input, state, input.inboxEntries);
    InstallsAfterCredits(p, preset, s.roster(input), input.listed, state,
                         ApplyInbox(p, s, input, state, input.inboxEntries).value);
  }

  lemma OpeningCode(pins: map<Address, B256>, before: Db, after: Db)
    requires SameButValues(before, after)
    ensures NoOtherCode(pins, before.accounts) ==> NoOtherCode(pins, after.accounts)
    ensures forall a :: a in before.accounts ==>
              a in after.accounts && after.accounts[a].code == before.accounts[a].code
  {
    forall a | a in after.accounts && after.accounts[a].code != []
      ensures a in before.accounts && before.accounts[a].code != []
    {
      assert CodeAt(after.accounts, a) == CodeAt(before.accounts, a);
    }
    forall a | a in before.accounts
      ensures a in after.accounts && after.accounts[a].code == before.accounts[a].code
    {
      assert CodeAt(after.accounts, a) == CodeAt(before.accounts, a);
    }
  }

  // ----- Production equals fallback -----

  lemma PreparedShadows(p: Platform, input: BatchInput, o: Opening)
    requires ValidPlatform(p) && GoodOpening(p, input, o)
    ensures var fast, slow := Prepare(p, o.policy, o.db, true), Prepare(p, o.policy, o.db, false);
            && fast.Some? && slow == Some(o.db) && Shadows(p, fast.value, o.db) && fast.value.accounts == o.db.accounts
            && StateRoot(p, fast.value) == StateRoot(p, o.db)
            && StartCarry(p, input, o.compactRoot, fast.value).(db := o.db) == StartCarry(p, input, o.compactRoot, o.db)
  {
    InstallKeepsCacheValid(p, o.db, o.policy.codeHashes);
    RootIgnoresCache(p, InstallPrepared(p, o.db, o.policy.codeHashes).value);
  }

  lemma ClosesAlike(p: Platform, s: Settlement, input: BatchInput, policy: ExecutionPolicy, snapshot: Snapshot,
                    fast: Result<Carry, StfError>, slow: Result<Carry, StfError>)
    requires SameCarry(p, fast, slow)
    ensures Close(p, s, input, policy, snapshot, fast) == Close(p, s, input, policy, snapshot, slow)
  {
  }

  lemma RunsAlike(p: Platform, exec: BlockExec, s: Settlement, input: BatchInput, o: Opening, verify: bool)
    requires ValidPlatform(p) && ExecutesAlike(p, exec) && GoodOpening(p, input, o)
    ensures RunOpened(p, exec, s, input, o, true, verify) == RunOpened(p, exec, s, input, o, false, verify)
  {
    PreparedShadows(p, input, o);
    var fast, blocks := Prepare(p, o.policy, o.db, true).value, ChainBlocks(input);
    var rules := RulesFor(s, input, o.policy, true, verify);
    var start, plain := StartCarry(p, input, o.compactRoot, fast), StartCarry(p, input, o.compactRoot, o.db);
    ChainsAlike(p, exec, rules, blocks, start, plain, |blocks|);
    assert Gadgeted(rules, true) == rules && Gadgeted(rules, false) == RulesFor(s, input, o.policy, false, verify);
    ClosesAlike(p, s, input, o.policy, SnapshotOf(o.db.accounts),
                RunChain(exec, Gadgeted(rules, true), blocks, start, |blocks|),
                    RunChain(exec, Gadgeted(rules, false), blocks, plain, |blocks|));
  }

  /** Production execution (fused opcodes and prepared-code cache) and the interpreter fallback give the same journal or
      the same error, for every input. */
  lemma ProductionEqualsFallback(w: World, s: Settlement, emptyRoot: B256, input: BatchInput, verify: bool)
    requires ValidPlatform(w.p) && Transparent(w)
    ensures ExecuteBatch(w.p, Exec(w), s, emptyRoot, input, true, verify)
            == ExecuteBatch(w.p, Exec(w), s, emptyRoot, input, false, verify)
  {
    if Open(w.p, s, emptyRoot, input).Ok? {
      OpeningIsGood(w.p, s, emptyRoot, input);
      ExecAlike(w);
      RunsAlike(w.p, Exec(w), s, input, Open(w.p, s, emptyRoot, input).value, verify);
    }
  }

  /** The same, with the EVM as an arbitrary program over database reads, frame boundaries and instruction loops: the
      fused table against REVM's own. */
  lemma ProductionParity<S(!new), R(!new)>(w: World, enter: (Env, TxEnv) -> S, evm: S -> Evm.Action<S, R>,
                                           fast: Evm.Interp<R>, slow: Evm.Interp<R>, s: Settlement, emptyRoot: B256,
                                           input: BatchInput)
    requires ValidPlatform(w.p) && Evm.Pairing(fast, slow) && Evm.ExecutesPrograms(w, enter, evm, fast, slow)
    ensures ExecuteBatch(w.p, Exec(w), s, emptyRoot, input, true, false)
            == ExecuteBatch(w.p, Exec(w), s, emptyRoot, input, false, false)
  {
    Evm.FusedExecutionIsTransparent(w, enter, evm, fast, slow);
    ProductionEqualsFallback(w, s, emptyRoot, input, false);
  }

  /** The same at the shipped configuration: the fifty motifs, and any tables as installation leaves them. */
  lemma ShippedParity<S(!new), R(!new)>(w: World, enter: (Env, TxEnv) -> S, evm: S -> Evm.Action<S, R>,
                                        others: Others<R>, plain: seq<Instruction>, fused: seq<Instruction>,
                                        s: Settlement, emptyRoot: B256, input: BatchInput)
    requires ValidPlatform(w.p) && IsReferenceTable(others, plain) && HasFused(others, fused, FusedFirsts())
    requires Evm.ExecutesPrograms(w, enter, evm, Evm.Interp(others, Top50, fused), Evm.Interp(others, Top50, plain))
    ensures ExecuteBatch(w.p, Exec(w), s, emptyRoot, input, true, false)
         == ExecuteBatch(w.p, Exec(w), s, emptyRoot, input, false, false)
  {
    Top50StartsFused();
    ProductionParity(w, enter, evm, Evm.Interp(others, Top50, fused), Evm.Interp(others, Top50, plain), s, emptyRoot,
                     input);
  }

  // ----- The carried root, heights and clock -----

  lemma StartRootIsStateRoot(w: World, input: BatchInput, o: Opening, cached: bool)
    requires ValidPlatform(w.p) && GoodOpening(w.p, input, o)
    ensures var prepared := Prepare(w.p, o.policy, o.db, cached);
            && prepared.Some? && prepared.value.accounts == o.db.accounts
            && RootIn(w)(prepared.value, 0) == Some(StartCarry(w.p, input, o.compactRoot, prepared.value).root)
  {
    PreparedShadows(w.p, input, o);
    var prepared := Prepare(w.p, o.policy, o.db, cached).value;
    assert StateRoot(w.p, prepared) == StateRoot(w.p, o.db);
    assert RootIn(w)(prepared, 0) == RoomRoot(w, prepared, 0);
  }

  /** Recomputing the carried root before every block would never change the outcome of a batch. */
  lemma RootChecksChangeNothing(w: World, s: Settlement, emptyRoot: B256, input: BatchInput, cached: bool)
    requires ValidPlatform(w.p)
    ensures ExecuteBatch(w.p, Exec(w), s, emptyRoot, input, cached, true)
            == ExecuteBatch(w.p, Exec(w), s, emptyRoot, input, cached, false)
  {
    if Open(w.p, s, emptyRoot, input).Ok? {
      var o := Open(w.p, s, emptyRoot, input).value;
      OpeningIsGood(w.p, s, emptyRoot, input);
      StartRootIsStateRoot(w, input, o, cached);
      ExecRoots(w);
      ExecCheckRedundant(w);
      var rules, blocks := RulesFor(s, input, o.policy, cached, false), ChainBlocks(input);
      var start := StartCarry(w.p, input, o.compactRoot, Prepare(w.p, o.policy, o.db, cached).value);
      VerifyingChangesNothing(RootIn(w), Exec(w), rules, blocks, start, |blocks|);
      assert Verifying(rules, false) == rules && Verifying(rules, true) == RulesFor(s, input, o.policy, cached, true);
    }
  }

  /** The block loop of an opened batch. */
  function Loop(p: Platform, exec: BlockExec, s: Settlement, input: BatchInput, o: Opening, start: Db,
                cached: bool): Result<Carry, StfError>
  {
    var blocks := ChainBlocks(input);
    RunChain(exec, RulesFor(s, input, o.policy, cached, false), blocks, StartCarry(p, input, o.compactRoot, start),
             |blocks|)
  }

  function ClockAt(input: BatchInput, i: nat): U64
    requires i <= |input.blocks|
  {
    if i == 0 then input.previousTimestamp else input.blocks[i - 1].env.timestamp
  }

  /** Block i has the next height, a time no earlier than the block before it, and otherwise the room's own
      environment. */
  predicate HeaderHolds(s: Settlement, input: BatchInput, gasCap: U64, i: nat)
    requires i < |input.blocks|
  {
    var b := input.blocks[i];
    && input.l2Start + i < TWO_64 && b.number == input.l2Start + i && ClockAt(input, i) <= b.env.timestamp
    && b.env == RoomEnv(b.number, b.env.timestamp, gasCap, s.chainId(input.deploymentId, input.roomId))
  }

  lemma HeaderExact(s: Settlement, input: BatchInput, gasCap: U64, i: nat)
    requires i < |input.blocks|
    ensures HeaderError(s, input, gasCap, i, ToChain(input.blocks[i]), ClockAt(input, i)).None?
            <==> HeaderHolds(s, input, gasCap, i)
  {
  }

  lemma LoopBlock(p: Platform, exec: BlockExec, s: Settlement, input: BatchInput, o: Opening, start: Db, cached: bool,
                  i: nat)
    requires Loop(p, exec, s, input, o, start, cached).Ok? && i < |input.blocks|
    ensures HeaderHolds(s, input, o.policy.maxGasPerBlock, i)
  {
    var blocks := ChainBlocks(input);
    AcceptedBlock(exec, RulesFor(s, input, o.policy, cached, false), blocks, StartCarry(p, input, o.compactRoot, start),
                  i);
    assert blocks[i] == ToChain(input.blocks[i]);
    if i > 0 {
      assert blocks[i - 1] == ToChain(input.blocks[i - 1]);
    }
    HeaderExact(s, input, o.policy.maxGasPerBlock, i);
  }

  lemma LoopHeaders(p: Platform, exec: BlockExec, s: Settlement, emptyRoot: B256, input: BatchInput, o: Opening,
                    start: Db, cached: bool)
    requires Open(p, s, emptyRoot, input) == Ok(o) && Loop(p, exec, s, input, o, start, cached).Ok?
    ensures CountError(input).None? && s.preset(input).Some?
    ensures forall i :: 0 <= i < |input.blocks| ==>
              HeaderHolds(s, input, s.preset(input).value.policy.maxGasPerBlock, i)
    ensures o.compactRoot == input.prevStateRoot
  {
    var state, preset := OpeningParts(p, s, emptyRoot, input);
    forall i | 0 <= i < |input.blocks|
      ensures HeaderHolds(s, input, preset.policy.maxGasPerBlock, i)
    {
      LoopBlock(p, exec, s, input, o, start, cached, i);
    }
  }

  /** The journal of an accepted batch: one block only when it closes, contiguous heights, an ordered clock, the room's
      own environment with the preset's gas limit, one record per block with the block's own root. */
  ghost predicate Chained(w: World, s: Settlement, input: BatchInput, j: BatchJournal)
  {
    && 1 <= |input.blocks| <= MAX_BATCH_BLOCKS && (|input.blocks| == 1 ==> input.close)
    && |j.blocks| == |input.blocks| && s.preset(input).Some?
    && (forall i :: 0 <= i < |input.blocks| ==>
        HeaderHolds(s, input, s.preset(input).value.policy.maxGasPerBlock, i))
    && (forall i :: 0 <= i < |input.blocks| ==>
          j.blocks[i] == BlockRecord(input.blocks[i].number, input.blocks[i].expectedRoot,
                                     w.txCommitment(input.blocks[i].rawTxs), w.envHash(input.blocks[i].env)))
    && j.l2Start == input.l2Start && j.l2End == input.l2Start + |input.blocks| - 1
    && j.previousTimestamp == input.previousTimestamp
    && j.finalTimestamp == input.blocks[|input.blocks| - 1].env.timestamp
    && j.prevStateRoot == input.prevStateRoot && j.postStateRoot == input.blocks[|input.blocks| - 1].expectedRoot
  }

  lemma LoopCarry(w: World, exec: BlockExec, s: Settlement, input: BatchInput, o: Opening, start: Db, cached: bool)
    requires RecordsBlock(w.txCommitment, w.envHash, exec) && Loop(w.p, exec, s, input, o, start, cached).Ok?
             && input.blocks != []
    ensures var c := Loop(w.p, exec, s, input, o, start, cached).value;
            && c.root == input.blocks[|input.blocks| - 1].expectedRoot
            && c.timestamp == input.blocks[|input.blocks| - 1].env.timestamp
            && |c.journals| == |input.blocks|
            && forall i :: 0 <= i < |input.blocks| ==>
                 c.journals[i] == BlockRecord(input.blocks[i].number, input.blocks[i].expectedRoot,
                                              w.txCommitment(input.blocks[i].rawTxs), w.envHash(input.blocks[i].env))
  {
    var blocks := ChainBlocks(input);
    FinalCarry(w.txCommitment, w.envHash, exec, RulesFor(s, input, o.policy, cached, false), blocks,
               StartCarry(w.p, input, o.compactRoot, start), |blocks|);
    assert forall i :: 0 <= i < |blocks| ==> blocks[i] == ToChain(input.blocks[i]);
  }

  /** What acceptance says about the opening, the loop and the closing check. */
  lemma AcceptedParts(p: Platform, exec: BlockExec, s: Settlement, emptyRoot: B256, input: BatchInput, cached: bool)
    returns (o: Opening, start: Db, c: Carry)
    requires ExecuteBatch(p, exec, s, emptyRoot, input, cached, false).Ok?
    ensures Open(p, s, emptyRoot, input) == Ok(o) && Prepare(p, o.policy, o.db, cached) == Some(start)
    ensures Loop(p, exec, s, input, o, start, cached) == Ok(c) && CountError(input).None?
    ensures PostStateOk(p, o.policy, SnapshotOf(start.accounts), c.db.accounts)
    ensures var j := ExecuteBatch(p, exec, s, emptyRoot, input, cached, false).value;
            && j.blocks == c.journals && j.postStateRoot == c.root && j.finalTimestamp == c.timestamp
            && j.l2End == input.l2Start + |input.blocks| - 1 && j.prevStateRoot == input.prevStateRoot
            && j.l2Start == input.l2Start && j.previousTimestamp == input.previousTimestamp
            && s.settle(input, c.db.accounts) == Ok(j.settled)
  {
    o := Open(p, s, emptyRoot, input).value;
    start := Prepare(p, o.policy, o.db, cached).value;
    c := Loop(p, exec, s, input, o, start, cached).value;
  }

  /** The root recorded before block i; an empty inbox leaves the batch's own previous root. */
  function RootAt(p: Platform, input: BatchInput, o: Opening, i: nat): B256
    requires i <= |input.blocks|
  {
    if i > 0 then input.blocks[i - 1].expectedRoot
    else if input.inboxEntries == 0 then input.prevStateRoot
    else StateRoot(p, o.db)
  }

  /** The loop reaches block i, in a state whose root is the one recorded before it. */
  ghost predicate BlockRunsFromRoot(w: World, s: Settlement, input: BatchInput, o: Opening, start: Db, cached: bool,
                                    i: nat)
    requires ValidPlatform(w.p) && i <= |input.blocks|
  {
    var blocks, rules := ChainBlocks(input), RulesFor(s, input, o.policy, cached, false);
    var before := RunChain(Exec(w), rules, blocks, StartCarry(w.p, input, o.compactRoot, start), i);
    before.Ok? && StateRoot(w.p, before.value.db) == RootAt(w.p, input, o, i)
  }

  lemma RootAtIsRootBefore(p: Platform, input: BatchInput, o: Opening, start: Db, i: nat)
    requires o.compactRoot == input.prevStateRoot && StateRoot(p, start) == StateRoot(p, o.db) && i <= |input.blocks|
    ensures RootBefore(ChainBlocks(input), StartCarry(p, input, o.compactRoot, start), i) == RootAt(p, input, o, i)
  {
    if i > 0 {
      assert ChainBlocks(input)[i - 1] == ToChain(input.blocks[i - 1]);
    }
  }

  lemma LoopRootToRoot(w: World, s: Settlement, input: BatchInput, o: Opening, start: Db, cached: bool, i: nat)
    requires ValidPlatform(w.p) && GoodOpening(w.p, input, o) && Prepare(w.p, o.policy, o.db, cached) == Some(start)
    requires o.compactRoot == input.prevStateRoot
    requires Loop(w.p, Exec(w), s, input, o, start, cached).Ok? && i <= |input.blocks|
    ensures BlockRunsFromRoot(w, s, input, o, start, cached, i)
  {
    PreparedShadows(w.p, input, o);
    StartRootIsStateRoot(w, input, o, cached);
    RootAtIsRootBefore(w.p, input, o, start, i);
    var carry := StartCarry(w.p, input, o.compactRoot, start);
    TrieRootToRoot(w, RulesFor(s, input, o.policy, cached, false), ChainBlocks(input), carry, i);
  }

  /** Accepted blocks are contiguous in height, ordered in time and chained root to root: every block runs from a state
      whose root is the previous block's recorded root, and the final root is the root of the final state. */
  lemma AcceptedBatchIsChained(w: World, s: Settlement, emptyRoot: B256, input: BatchInput, cached: bool)
    returns (o: Opening, start: Db, c: Carry)
    requires ValidPlatform(w.p) && ExecuteBatch(w.p, Exec(w), s, emptyRoot, input, cached, false).Ok?
    ensures Chained(w, s, input, ExecuteBatch(w.p, Exec(w), s, emptyRoot, input, cached, false).value)
    ensures Open(w.p, s, emptyRoot, input) == Ok(o) && Prepare(w.p, o.policy, o.db, cached) == Some(start)
    ensures Loop(w.p, Exec(w), s, input, o, start, cached) == Ok(c)
    ensures forall i :: 0 <= i <= |input.blocks| ==> BlockRunsFromRoot(w, s, input, o, start, cached, i)
    ensures var j := ExecuteBatch(w.p, Exec(w), s, emptyRoot, input, cached, false).value;
            StateRoot(w.p, c.db) == j.postStateRoot && s.settle(input, c.db.accounts) == Ok(j.settled)
  {
    var exec := Exec(w);
    o, start, c := AcceptedParts(w.p, exec, s, emptyRoot, input, cached);
    ExecRoots(w);
    LoopCarry(w, exec, s, input, o, start, cached);
    OpeningIsGood(w.p, s, emptyRoot, input);
    LoopHeaders(w.p, exec, s, emptyRoot, input, o, start, cached);
    forall i | 0 <= i <= |input.blocks|
      ensures BlockRunsFromRoot(w, s, input, o, start, cached, i)
    {
      LoopRootToRoot(w, s, input, o, start, cached, i);
    }
    assert BlockRunsFromRoot(w, s, input, o, start, cached, |input.blocks|);
  }

  // ----- What a certified batch guarantees -----

  /** The terminal state of a certified batch next to the state its blocks started from. */
  ghost predicate SafeTerminal(p: Platform, policy: ExecutionPolicy, pre: Accounts, post: Db)
  {
    && PinsHold(p, policy.codeHashes, post.accounts) && NoOtherCode(policy.codeHashes, post.accounts) && Contained(post)
    && forall a: Address, k: U256 :: SlotValue(pre, a, k) != SlotValue(post.accounts, a, k) ==> Writable(policy, a, k)
  }

  lemma SnapshotValues(accounts: Accounts)
    ensures forall a: Address, k: U256 :: SnapshotValue(SnapshotOf(accounts), a, k) == SlotValue(accounts, a, k)
  {
  }

  lemma TerminalIsSafe(p: Platform, exec: BlockExec, s: Settlement, input: BatchInput, o: Opening, start: Db,
                       cached: bool)
    requires BlocksKeep(exec) && Certified(o.policy) && Contained(start)
             && NoOtherCode(o.policy.codeHashes, start.accounts)
    requires Loop(p, exec, s, input, o, start, cached).Ok?
    requires PostStateOk(p, o.policy, SnapshotOf(start.accounts),
                         Loop(p, exec, s, input, o, start, cached).value.db.accounts)
    ensures SafeTerminal(p, o.policy, start.accounts, Loop(p, exec, s, input, o, start, cached).value.db)
  {
    var blocks, carry := ChainBlocks(input), StartCarry(p, input, o.compactRoot, start);
    var post := Loop(p, exec, s, input, o, start, cached).value.db;
    ChainKeeps(exec, RulesFor(s, input, o.policy, cached, false), blocks, carry, |blocks|);
    AcceptedPostState(p, o.policy, SnapshotOf(start.accounts), post.accounts);
    SnapshotValues(start.accounts);
  }

  /** Transaction j of block i, as the loop ran it, stayed inside the certified envelope. */
  ghost predicate BatchTxAllowed(w: World, s: Settlement, input: BatchInput, o: Opening, start: Db, cached: bool,
                                 i: nat, j: nat)
    requires ValidPlatform(w.p) && i < |input.blocks| && j < |input.blocks[i].rawTxs|
  {
    var rules, blocks, carry := RulesFor(s, input, o.policy, cached, false), ChainBlocks(input),
        StartCarry(w.p, input, o.compactRoot, start);
    TxAllowed(w, o.policy, cached, InputFor(rules, blocks[i], RootBefore(blocks, carry, i)), None,
              OpeningState(Exec(w), rules, blocks, carry, i), j)
  }

  lemma LoopTxAllowed(w: World, s: Settlement, input: BatchInput, o: Opening, start: Db, cached: bool, i: nat, j: nat)
    requires ValidPlatform(w.p) && Loop(w.p, Exec(w), s, input, o, start, cached).Ok? && i < |input.blocks|
             && j < |input.blocks[i].rawTxs|
    ensures BatchTxAllowed(w, s, input, o, start, cached, i, j)
  {
    EveryTransactionAllowed(w, Exec(w), RulesFor(s, input, o.policy, cached, false), ChainBlocks(input),
                            StartCarry(w.p, input, o.compactRoot, start), i, j);
  }

  /** An accepted certified batch: in every transaction of every block the root call and every nested call were
      allow-listed, nothing was created or destroyed, CALLCODE never ran and memory stayed under the cap; and the final
      storage differs from the snapshot only in writable namespaces, with the pinned code and no other in place. */
  lemma CertifiedBatchIsSafe(w: World, s: Settlement, emptyRoot: B256, input: BatchInput, cached: bool)
    returns (o: Opening, start: Db, c: Carry)
    requires ValidPlatform(w.p) && CodeOnlyFromCreation(w)
    requires ExecuteBatch(w.p, Exec(w), s, emptyRoot, input, cached, false).Ok?
    ensures Open(w.p, s, emptyRoot, input) == Ok(o) && Prepare(w.p, o.policy, o.db, cached) == Some(start)
    ensures Loop(w.p, Exec(w), s, input, o, start, cached) == Ok(c)
    ensures o.policy.certified ==> SafeTerminal(w.p, o.policy, o.db.accounts, c.db) && Certified(o.policy)
    ensures forall i, j :: 0 <= i < |input.blocks| && 0 <= j < |input.blocks[i].rawTxs| ==>
              BatchTxAllowed(w, s, input, o, start, cached, i, j)
  {
    var exec := Exec(w);
    o, start, c := AcceptedParts(w.p, exec, s, emptyRoot, input, cached);
    OpeningIsGood(w.p, s, emptyRoot, input);
    StartRootIsStateRoot(w, input, o, cached);
    if o.policy.certified {
      ExecKeeps(w);
      PreparedContained(w.p, o.policy, o.db, cached);
      TerminalIsSafe(w.p, exec, s, input, o, start, cached);
    }
    forall i, j | 0 <= i < |input.blocks| && 0 <= j < |input.blocks[i].rawTxs|
      ensures BatchTxAllowed(w, s, input, o, start, cached, i, j)
    {
      LoopTxAllowed(w, s, input, o, start, cached, i, j);
    }
  }

  lemma PreparedContained(p: Platform, policy: ExecutionPolicy, db: Db, cached: bool)
    requires Contained(db) && Prepare(p, policy, db, cached).Some?
    ensures Contained(Prepare(p, policy, db, cached).value)
  {
    var after := Prepare(p, policy, db, cached).value;
    assert after.(preparedCode := db.preparedCode, preparedAddresses := db.preparedAddresses) == db;
  }

  // ----- What the published hashes bind -----

  /** Two accepted batches that publish the same block-data hash carry the same heights, timestamps, roots and
      transactions over the same previous root, unless their canonical bytes collide. */
  lemma PublishedDataBinds(p: Platform, s: Settlement, emptyRoot: B256, a: BatchInput, b: BatchInput)
    requires Open(p, s, emptyRoot, a).Ok? && Open(p, s, emptyRoot, b).Ok? && a.expectedDataHash == b.expectedDataHash
    requires |Rlp.Encode(BatchDataV4.ShortBatch(ChainBlocks(a), a.prevStateRoot))| < TWO_64
    ensures var x, y := Rlp.Encode(BatchDataV4.ShortBatch(ChainBlocks(a), a.prevStateRoot)),
                        Rlp.Encode(BatchDataV4.ShortBatch(ChainBlocks(b), b.prevStateRoot));
            || Collide(p.keccak, {x}, {y})
            || (&& BatchDataV4.CommittedAll(ChainBlocks(a)) == BatchDataV4.CommittedAll(ChainBlocks(b))
                && a.prevStateRoot == b.prevStateRoot)
  {
    var state, preset := OpeningParts(p, s, emptyRoot, a);
    var state', preset' := OpeningParts(p, s, emptyRoot, b);
    SameHashSameData(p, ChainBlocks(a), a.prevStateRoot, ChainBlocks(b), b.prevStateRoot);
  }

  lemma SameHashSameData(p: Platform, a: seq<ChainBlock>, r: B256, b: seq<ChainBlock>, q: B256)
    requires a != [] && |Rlp.Encode(BatchDataV4.ShortBatch(a, r))| < TWO_64
    requires p.keccak(Rlp.Encode(BatchDataV4.ShortBatch(a, r))) == p.keccak(Rlp.Encode(BatchDataV4.ShortBatch(b, q)))
    ensures || Collide(p.keccak, {Rlp.Encode(BatchDataV4.ShortBatch(a, r))}, {Rlp.Encode(BatchDataV4.ShortBatch(b, q))})
            || (BatchDataV4.CommittedAll(a) == BatchDataV4.CommittedAll(b) && r == q)
  {
    var x, y := Rlp.Encode(BatchDataV4.ShortBatch(a, r)), Rlp.Encode(BatchDataV4.ShortBatch(b, q));
    if x == y {
      BatchDataV4.ShortDataBinding(a, r, b, q);
    } else {
      EqualOrCollide(p.keccak, x, y, {x}, {y});
    }
  }

  /** A composed batch bound to the journal of an accepted cold run opens with the proven lists, the proven code
      everywhere and the proven value of everything outside the refresh rules, unless hashed strings collide. */
  lemma ComposedBatchStartsAsProven(w: World, s: Settlement, emptyRoot: B256, input: BatchInput, cold: ColdInput,
                                    l: ColdLink, prepared: Accounts)
    returns (state: Db)
    requires ValidPlatform(w.p) && Open(w.p, s, emptyRoot, input).Ok? && input.link == Some(l)
    requires ColdAccepts(w, Exec(w), cold) && prepared == RunSetup(w, Exec(w), cold, false).value.db.accounts
    requires l.cold == JournalOf(w, l.domains, l.runtimeDomains, cold, prepared)
    ensures OpenedAs(input.listed, state) && StateRoot(w.p, state) == input.prevStateRoot
    ensures LinkOk(w.p, l.domains, l.runtimeDomains, input.identity, l.cold, l.runtime, l.access, l.refresh,
                   state.accounts)
    ensures || Collide(w.p.keccak, LinkPreimages(w.p, l.domains, l.runtimeDomains, cold.runtime, cold.access,
                                                 cold.refresh, prepared),
                       LinkPreimages(w.p, l.domains, l.runtimeDomains, l.runtime, l.access, l.refresh, state.accounts))
            || (&& l.runtime == cold.runtime && l.access == cold.access && l.refresh == cold.refresh
                && Agree(prepared, state.accounts, l.access, l.refresh)
                && forall a :: CodeAt(prepared, a) == CodeAt(state.accounts, a))
  {
    var preset;
    state, preset := OpeningParts(w.p, s, emptyRoot, input);
    LinkBindsStaticState(w, l.domains, l.runtimeDomains, input.identity, cold, l.runtime, l.access, l.refresh,
                         state.accounts);
  }
}
