/** Cold room preparation: setup blocks run once, and the link that binds their result to a room's refreshed opening
    state. */
module ColdRoom {
  import opened Bytes
  import opened State
  import opened Compact
  import opened ColdLimits
  import opened ColdShapes
  import BatchDataV4
  import Rlp
  import opened ColdState
  import opened Block
  import opened BlockData
  import opened Chain

  // ----- The runtime-code root -----

  /** The type strings of the runtime list and of the template identifier. */
  datatype RuntimeDomains = RuntimeDomains(list: Bytes, entry: Bytes, template: Bytes)

  function RuntimeWords(h: Hash, t: RuntimeDomains, r: RuntimeCode): seq<B256>
  {
    [h(t.entry), AddressWord(r.address), r.codeHash]
  }

  function RuntimeStrings(h: Hash, t: RuntimeDomains, runtime: seq<RuntimeCode>): (r: seq<Bytes>)
    ensures |r| == |runtime|
  {
    seq(|runtime|, i requires 0 <= i < |runtime| => Concat(RuntimeWords(h, t, runtime[i])))
  }

  function RuntimeRoot(h: Hash, t: RuntimeDomains, runtime: seq<RuntimeCode>): B256
  {
    h(Listed(h(t.list), Digests(h, RuntimeStrings(h, t, runtime))))
  }

  function RuntimePreimages(h: Hash, t: RuntimeDomains, runtime: seq<RuntimeCode>): set<Bytes>
  {
    {Listed(h(t.list), Digests(h, RuntimeStrings(h, t, runtime)))} + Strings(RuntimeStrings(h, t, runtime))
  }

  /** The runtime root binds the runtime list. */
  lemma RuntimeRootBinding(h: Hash, t: RuntimeDomains, a: seq<RuntimeCode>, b: seq<RuntimeCode>, p: set<Bytes>,
                           q: set<Bytes>)
    requires RuntimeRoot(h, t, a) == RuntimeRoot(h, t, b) && !Collide(h, p, q)
    requires RuntimePreimages(h, t, a) <= p && RuntimePreimages(h, t, b) <= q
    ensures a == b
  {
    var x, y := RuntimeStrings(h, t, a), RuntimeStrings(h, t, b);
    assert Strings(x) <= RuntimePreimages(h, t, a) && Strings(y) <= RuntimePreimages(h, t, b);
    EqualOrCollide(h, Listed(h(t.list), Digests(h, x)), Listed(h(t.list), Digests(h, y)), p, q);
    ListedInjective(h(t.list), Digests(h, x), Digests(h, y));
    DigestsBind(h, x, y, p, q);
    forall i | 0 <= i < |a|
      ensures a[i] == b[i]
    {
      assert x[i] == y[i];
      var v, u := RuntimeWords(h, t, a[i]), RuntimeWords(h, t, b[i]);
      ConcatInjective(v, u);
      assert v[1] == u[1] && v[2] == u[2];
      AddressWordInjective(a[i].address, b[i].address);
    }
  }

  // ----- The journal -----

  const COLD_VERSION: U64 := 4
  const COLD_CHAIN_ID: U64 := 77_999_999
  const COLD_GAS_CAP: U64 := 30_000_000

  datatype ColdJournal = ColdJournal(
    version: U64,
    templateId: B256,
    identity: Identity,
    chainId: U64,
    initialRoot: B256,
    initializedRoot: B256,
    setupDataHash: B256,
    runtimeRoot: B256,
    accessRoot: B256,
    refreshRoot: B256,
    staticCommitment: B256)

  function TemplateWords(h: Hash, t: RuntimeDomains, j: ColdJournal): seq<B256>
  {
    var id := j.identity;
    [h(t.template), id.bundle, id.preset, id.manifest, id.program, U64Word(j.chainId), j.initialRoot, j.initializedRoot,
     j.setupDataHash,
     j.runtimeRoot, j.accessRoot, j.refreshRoot, j.staticCommitment, id.artifacts, id.callTargets]
  }

  function TemplateId(h: Hash, t: RuntimeDomains, j: ColdJournal): B256
  {
    h(Concat(TemplateWords(h, t, j)))
  }

  /** A template id binds the whole cold statement but the protocol version. */
  lemma TemplateBinding(h: Hash, t: RuntimeDomains, a: ColdJournal, b: ColdJournal)
    requires TemplateId(h, t, a) == TemplateId(h, t, b)
    ensures || Collide(h, {Concat(TemplateWords(h, t, a))}, {Concat(TemplateWords(h, t, b))})
            || a.(version := b.version, templateId := b.templateId) == b
  {
    var x, y := TemplateWords(h, t, a), TemplateWords(h, t, b);
    if Concat(x) == Concat(y) {
      ConcatInjective(x, y);
      TemplateFields(h, t, a, b);
    } else {
      EqualOrCollide(h, Concat(x), Concat(y), {Concat(x)}, {Concat(y)});
    }
  }

  lemma TemplateFields(h: Hash, t: RuntimeDomains, a: ColdJournal, b: ColdJournal)
    requires TemplateWords(h, t, a) == TemplateWords(h, t, b)
    ensures a.(version := b.version, templateId := b.templateId) == b
  {
    var x, y := TemplateWords(h, t, a), TemplateWords(h, t, b);
    assert forall i :: 0 <= i < 15 ==> x[i] == y[i];
    assert a.identity == b.identity by {
      assert x[1] == y[1] && x[2] == y[2] && x[3] == y[3] && x[4] == y[4] && x[13] == y[13] && x[14] == y[14];
    }
    assert x[5] == y[5] && x[6] == y[6] && x[7] == y[7] && x[8] == y[8];
    assert x[9] == y[9] && x[10] == y[10] && x[11] == y[11] && x[12] == y[12];
    U64WordInjective(a.chainId, b.chainId);
  }

  // ----- Cold execution -----

  /** Some setup transaction creates a contract. */
  predicate SawCreation(w: World, blocks: seq<ChainBlock>)
  {
    exists i, j :: 0 <= i < |blocks| && 0 <= j < |blocks[i].rawTxs|
                   && w.decodeTx(blocks[i].rawTxs[j], blocks[i].env.chainId).Ok?
                   && w.decodeTx(blocks[i].rawTxs[j], blocks[i].env.chainId).value.kind.CreateTx?
  }

  function SetupError(w: World, i: nat, b: ChainBlock, previous: U64): Option<StfError>
  {
    if b.number != i || b.env.number != i then Some(InvalidBatch(20))
    else if b.env.timestamp < previous || b.env.chainId != COLD_CHAIN_ID || b.env.coinbase != 0 || b.env.baseFee != 0
            || b.env.prevRandao != Zeros(32) || b.env.difficulty != 0 || b.env.excessBlobGas != 0
            || !(1 <= b.env.gasLimit <= COLD_GAS_CAP) then Some(InvalidBatch(21))
    else if !Decodes(w, b) then Some(TxDecode(0))
    else None
  }

  /** Setup block i has height i, a time no earlier than the one before it, a gas limit under the cap, transactions that
      all decode, and otherwise the cold environment. */
  predicate SetupHolds(w: World, i: nat, b: ChainBlock, previous: U64)
  {
    && b.number == i && previous <= b.env.timestamp && 1 <= b.env.gasLimit <= COLD_GAS_CAP && Decodes(w, b)
    && b.env == RoomEnv(b.number, b.env.timestamp, b.env.gasLimit, COLD_CHAIN_ID)
  }

  lemma SetupExact(w: World, i: nat, b: ChainBlock, previous: U64)
    ensures SetupError(w, i, b, previous).None? <==> SetupHolds(w, i, b, previous)
  {
  }

  /** Setup blocks run without a preset and without a gas cap of their own beyond the block limit. */
  function SetupRules(w: World, verify: bool): Rules
  {
    Rules(0, (i: nat, b: ChainBlock, t: U64) => SetupError(w, i, b, t), Mode(None, verify, 0, true, None), TWO_64)
  }

  function InitialDb(input: ColdInput): Db
  {
    Db(FromInput(input.initialState), map[], None, None, None, map[], map[])
  }

  function SetupStart(p: Platform, input: ColdInput): Carry
  {
    Carry(InitialDb(input), StateRoot(p, InitialDb(input)), 0, [])
  }

  /** The state after the setup blocks, when they are accepted. */
  function RunSetup(w: World, exec: BlockExec, input: ColdInput, verify: bool): Result<Carry, StfError>
  {
    RunChain(exec, SetupRules(w, verify), input.setupBlocks, SetupStart(w.p, input), |input.setupBlocks|)
  }

  /** The initialized state carries the committed bundle and a static commitment exists for it. */
  ghost predicate InitializedOk(p: Platform, input: ColdInput, c: Carry)
  {
    && c.root == input.initializedRoot && WithinCaps(c.db.accounts)
    && RuntimeVerified(p, c.db.accounts, input.runtime)
    && Committable(c.db.accounts, input.access, input.refresh)
  }

  /** The initial state has its root, every setup block is accepted, and some contract is created. */
  predicate SetupAccepted(w: World, exec: BlockExec, input: ColdInput)
  {
    && StateRoot(w.p, InitialDb(input)) == input.initialRoot && RunSetup(w, exec, input, false).Ok?
    && SawCreation(w, input.setupBlocks)
  }

  ghost predicate ColdAccepts(w: World, exec: BlockExec, input: ColdInput)
  {
    && InputOk(input) && ShapesOk(input.runtime, input.access, input.refresh) && SetupAccepted(w, exec, input)
    && InitializedOk(w.p, input, RunSetup(w, exec, input, false).value)
  }

  ghost function JournalOf(w: World, d: Domains, t: RuntimeDomains, input: ColdInput, accounts: Accounts): ColdJournal
    requires Committable(accounts, input.access, input.refresh)
  {
    var h := w.p.keccak;
    var j := ColdJournal(COLD_VERSION, Zeros(32), input.identity, COLD_CHAIN_ID, input.initialRoot,
                         input.initializedRoot,
                         SetupDataHash(w.p, input), RuntimeRoot(h, t, input.runtime), AccessRoot(h, d, input.access),
                         RefreshRoot(h, d, input.refresh),
                             h(CommitmentBytes(h, d, StaticOf(accounts, input.access, input.refresh))));
    j.(templateId := TemplateId(h, t, j))
  }

  function SetupDataHash(p: Platform, input: ColdInput): B256
  {
    p.keccak(Rlp.Encode(BatchDataV4.ShortBatch(input.setupBlocks, input.initialRoot)))
  }

  method RunColdSetup(w: World, ghost exec: BlockExec, input: ColdInput) returns (r: Option<Carry>)
    requires ValidPlatform(w.p) && Implements(w, exec)
    ensures r == if SetupAccepted(w, exec, input) then Some(RunSetup(w, exec, input, false).value) else None
  {
    var start := SetupStart(w.p, input);
    if start.root != input.initialRoot {
      return None;
    }
    var ran := RunBlocks(w, exec, SetupRules(w, false), input.setupBlocks, start);
    r := if ran.Err? || !SawCreation(w, input.setupBlocks) then None else Some(ran.value);
  }

  /** The checks of the initialized state, and its static commitment. */
  method CommitInitialized(p: Platform, d: Domains, input: ColdInput, c: Carry) returns (r: Option<B256>)
    requires ShapesOk(input.runtime, input.access, input.refresh)
    ensures r.Some? <==> InitializedOk(p, input, c)
    ensures r.Some? ==> r.value == p.keccak(CommitmentBytes(p.keccak, d,
                                                            StaticOf(c.db.accounts, input.access, input.refresh)))
  {
    var within := CheckCaps(c.db.accounts);
    if c.root != input.initializedRoot || !within {
      return None;
    }
    var bad := VerifyColdRuntimeCode(p, c.db.accounts, input.runtime);
    if bad.Some? {
      return None;
    }
    ShapesWithoutRuntime(input.runtime, input.access, input.refresh);
    var commitment := ColdStaticStateCommitment(p, d, c.db.accounts, input.access, input.refresh);
    r := if commitment.Err? then None else Some(commitment.value);
  }

  method ExecuteColdRoom(w: World, ghost exec: BlockExec, d: Domains, t: RuntimeDomains, input: ColdInput)
    returns (r: Option<ColdJournal>)
    requires ValidPlatform(w.p) && Implements(w, exec)
    ensures r.Some? <==> ColdAccepts(w, exec, input)
    ensures r.Some? ==> r.value == JournalOf(w, d, t, input, RunSetup(w, exec, input, false).value.db.accounts)
  {
    var within := CheckInput(input);
    if !within {
      return None;
    }
    var bad := ValidateColdShapes(input.runtime, input.access, input.refresh);
    if bad.Some? {
      return None;
    }
    var c := RunColdSetup(w, exec, input);
    if c.None? {
      return None;
    }
    var commitment := CommitInitialized(w.p, d, input, c.value);
    if commitment.None? {
      return None;
    }
    var h := w.p.keccak;
    var data := BatchDataV4.CanonicalBatchBytes(input.setupBlocks, input.initialRoot);
    var j := ColdJournal(COLD_VERSION, Zeros(32), input.identity, COLD_CHAIN_ID, input.initialRoot, c.value.root,
                         h(data),
                         RuntimeRoot(h, t, input.runtime), AccessRoot(h, d, input.access),
                             RefreshRoot(h, d, input.refresh),
                         commitment.value);
    r := Some(j.(templateId := TemplateId(h, t, j)));
  }

  lemma ShapesWithoutRuntime(runtime: seq<RuntimeCode>, access: seq<Access>, refresh: seq<Refresh>)
    requires ShapesOk(runtime, access, refresh)
    ensures ShapesOk([], access, refresh)
  {
  }

  /** Recomputing the carried root before every setup block would change nothing. */
  lemma SetupRootChecksChangeNothing(w: World, input: ColdInput)
    requires ValidPlatform(w.p)
    ensures RunSetup(w, Exec(w), input, true) == RunSetup(w, Exec(w), input, false)
  {
    ExecRoots(w);
    ExecCheckRedundant(w);
    var rules, start := SetupRules(w, false), SetupStart(w.p, input);
    assert RootIn(w)(start.db, 0) == RoomRoot(w, start.db, 0);
    VerifyingChangesNothing(RootIn(w), Exec(w), rules, input.setupBlocks, start, |input.setupBlocks|);
    assert Verifying(rules, false) == rules && Verifying(rules, true) == SetupRules(w, true);
  }

  /** The setup loop reaches block i, in a state whose root is the initial root or the previous block's recorded
      root. */
  ghost predicate SetupRunsFromRoot(w: World, input: ColdInput, i: nat)
    requires ValidPlatform(w.p) && i <= |input.setupBlocks|
  {
    var before := RunChain(Exec(w), SetupRules(w, false), input.setupBlocks, SetupStart(w.p, input), i);
    && before.Ok?
    && StateRoot(w.p, before.value.db) == if i == 0 then input.initialRoot else input.setupBlocks[i - 1].expectedRoot
  }

  /** An accepted setup is contiguous from height zero, ordered in time and chained root to root, from the initial root
      to the initialized root, which is the root of the initialized state. */
  lemma AcceptedSetupIsChained(w: World, input: ColdInput, i: nat)
    requires ValidPlatform(w.p) && ColdAccepts(w, Exec(w), input) && i < |input.setupBlocks|
    ensures SetupHolds(w, i, input.setupBlocks[i], ClockBefore(input.setupBlocks, SetupStart(w.p, input), i))
    ensures SetupRunsFromRoot(w, input, i) && SetupRunsFromRoot(w, input, i + 1)
    ensures RootBefore(input.setupBlocks, SetupStart(w.p, input), |input.setupBlocks|) == input.initializedRoot
    ensures StateRoot(w.p, RunSetup(w, Exec(w), input, false).value.db) == input.initializedRoot
  {
    SetupBlockAccepted(w, input, i);
    SetupRootToRoot(w, input, i);
    SetupRootToRoot(w, input, i + 1);
    SetupRootToRoot(w, input, |input.setupBlocks|);
  }

  lemma SetupBlockAccepted(w: World, input: ColdInput, i: nat)
    requires ValidPlatform(w.p) && SetupAccepted(w, Exec(w), input) && i < |input.setupBlocks|
    ensures SetupHolds(w, i, input.setupBlocks[i], ClockBefore(input.setupBlocks, SetupStart(w.p, input), i))
    ensures RootBefore(input.setupBlocks, SetupStart(w.p, input), |input.setupBlocks|)
         == RunSetup(w, Exec(w), input, false).value.root
  {
    var exec, rules, start := Exec(w), SetupRules(w, false), SetupStart(w.p, input);
    ExecRoots(w);
    AcceptedBlock(exec, rules, input.setupBlocks, start, i);
    SetupExact(w, i, input.setupBlocks[i], ClockBefore(input.setupBlocks, start, i));
    FinalCarry(w.txCommitment, w.envHash, exec, rules, input.setupBlocks, start, |input.setupBlocks|);
  }

  lemma SetupRootToRoot(w: World, input: ColdInput, i: nat)
    requires ValidPlatform(w.p) && SetupAccepted(w, Exec(w), input) && i <= |input.setupBlocks|
    ensures SetupRunsFromRoot(w, input, i)
  {
    var start := SetupStart(w.p, input);
    assert RootIn(w)(start.db, 0) == RoomRoot(w, start.db, 0);
    TrieRootToRoot(w, SetupRules(w, false), input.setupBlocks, start, i);
  }

  // ----- The composed link -----

  /** The program, preset and manifest the batch itself names. */
  datatype BatchIdentity = BatchIdentity(program: B256, preset: B256, manifest: B256)

  predicate JournalOk(p: Platform, t: RuntimeDomains, batch: BatchIdentity, cold: ColdJournal)
  {
    && cold.version == COLD_VERSION && cold.chainId == COLD_CHAIN_ID && cold.templateId == TemplateId(p.keccak, t, cold)
    && BatchIdentity(cold.identity.program, cold.identity.preset, cold.identity.manifest) == batch
  }

  ghost predicate LinkOk(p: Platform, d: Domains, t: RuntimeDomains, batch: BatchIdentity, cold: ColdJournal,
                         runtime: seq<RuntimeCode>, access: seq<Access>, refresh: seq<Refresh>, accounts: Accounts)
  {
    && JournalOk(p, t, batch, cold) && ShapesOk(runtime, access, refresh)
    && RuntimeRoot(p.keccak, t, runtime) == cold.runtimeRoot
    && AccessRoot(p.keccak, d, access) == cold.accessRoot && RefreshRoot(p.keccak, d, refresh) == cold.refreshRoot
    && RuntimeVerified(p, accounts, runtime) && Committable(accounts, access, refresh)
    && p.keccak(CommitmentBytes(p.keccak, d, StaticOf(accounts, access, refresh))) == cold.staticCommitment
  }

  method ValidateComposedLink(p: Platform, d: Domains, t: RuntimeDomains, batch: BatchIdentity, cold: ColdJournal,
                              runtime: seq<RuntimeCode>, access: seq<Access>, refresh: seq<Refresh>, accounts: Accounts)
    returns (ok: bool)
    ensures ok <==> LinkOk(p, d, t, batch, cold, runtime, access, refresh, accounts)
  {
    if !JournalOk(p, t, batch, cold) {
      return false;
    }
    var bad := ValidateColdShapes(runtime, access, refresh);
    if bad.Some? {
      return false;
    }
    if RuntimeRoot(p.keccak, t, runtime) != cold.runtimeRoot || AccessRoot(p.keccak, d, access) != cold.accessRoot
       || RefreshRoot(p.keccak, d, refresh) != cold.refreshRoot {
      return false;
    }
    bad := VerifyColdRuntimeCode(p, accounts, runtime);
    if bad.Some? {
      return false;
    }
    ShapesWithoutRuntime(runtime, access, refresh);
    var commitment := ColdStaticStateCommitment(p, d, accounts, access, refresh);
    ok := commitment.Ok? && commitment.value == cold.staticCommitment;
  }

  /** Everything hashed for one side of the link. */
  ghost function LinkPreimages(p: Platform, d: Domains, t: RuntimeDomains, runtime: seq<RuntimeCode>,
                               access: seq<Access>, refresh: seq<Refresh>, accounts: Accounts): set<Bytes>
    requires Committable(accounts, access, refresh)
  {
    RuntimePreimages(p.keccak, t, runtime) + CodesOf(accounts)
    + CommitmentPreimages(p.keccak, d, StaticOf(accounts, access, refresh))
  }

  lemma LinkParts(p: Platform, d: Domains, t: RuntimeDomains, runtime: seq<RuntimeCode>, access: seq<Access>,
                  refresh: seq<Refresh>, accounts: Accounts)
    requires Committable(accounts, access, refresh)
    ensures var all := LinkPreimages(p, d, t, runtime, access, refresh, accounts);
            && RuntimePreimages(p.keccak, t, runtime) <= all && CodesOf(accounts) <= all
            && CommitmentPreimages(p.keccak, d, StaticOf(accounts, access, refresh)) <= all
  {
  }

  /** A room bound to a cold proof starts with the proven lists, the proven code everywhere, and the proven value of
      every nonce, balance and slot outside the refresh rules, unless hashed strings collide. */
  lemma LinkBindsStaticState(w: World, d: Domains, t: RuntimeDomains, batch: BatchIdentity, input: ColdInput,
                             runtime: seq<RuntimeCode>, access: seq<Access>, refresh: seq<Refresh>, room: Accounts)
    requires ValidPlatform(w.p) && ColdAccepts(w, Exec(w), input)
    requires LinkOk(w.p, d, t, batch, JournalOf(w, d, t, input, RunSetup(w, Exec(w), input, false).value.db.accounts),
                    runtime, access, refresh, room)
    ensures var prepared := RunSetup(w, Exec(w), input, false).value.db.accounts;
            || Collide(w.p.keccak, LinkPreimages(w.p, d, t, input.runtime, input.access, input.refresh, prepared),
                       LinkPreimages(w.p, d, t, runtime, access, refresh, room))
            || (&& runtime == input.runtime && access == input.access && refresh == input.refresh
                && Agree(prepared, room, access, refresh) && forall a :: CodeAt(prepared, a) == CodeAt(room, a))
  {
    var prepared := RunSetup(w, Exec(w), input, false).value.db.accounts;
    StaticStatesBind(w.p, d, t, input.runtime, input.access, input.refresh, prepared, runtime, access, refresh, room);
  }

  lemma StaticStatesBind(p: Platform, d: Domains, t: RuntimeDomains, runtime: seq<RuntimeCode>, access: seq<Access>,
                         refresh: seq<Refresh>, x: Accounts, runtime': seq<RuntimeCode>, access': seq<Access>,
                         refresh': seq<Refresh>, y: Accounts)
    requires ShapesOk(runtime, access, refresh) && Committable(x, access, refresh) && RuntimeVerified(p, x, runtime)
    requires Committable(y, access', refresh') && RuntimeVerified(p, y, runtime')
    requires RuntimeRoot(p.keccak, t, runtime) == RuntimeRoot(p.keccak, t, runtime')
    requires p.keccak(CommitmentBytes(p.keccak, d, StaticOf(x, access, refresh)))
             == p.keccak(CommitmentBytes(p.keccak, d, StaticOf(y, access', refresh')))
    ensures || Collide(p.keccak, LinkPreimages(p, d, t, runtime, access, refresh, x),
                       LinkPreimages(p, d, t, runtime', access', refresh', y))
            || (&& runtime' == runtime && access' == access && refresh' == refresh
                && Agree(x, y, access', refresh') && forall a :: CodeAt(x, a) == CodeAt(y, a))
  {
    var h := p.keccak;
    var u, v := LinkPreimages(p, d, t, runtime, access, refresh, x),
        LinkPreimages(p, d, t, runtime', access', refresh', y);
    if !Collide(h, u, v) {
      LinkParts(p, d, t, runtime, access, refresh, x);
      LinkParts(p, d, t, runtime', access', refresh', y);
      RuntimeRootBinding(h, t, runtime, runtime', u, v);
      var a, b := StaticOf(x, access, refresh), StaticOf(y, access', refresh');
      NoCollision(h, CommitmentPreimages(h, d, a), CommitmentPreimages(h, d, b), u, v);
      CommitmentBinding(h, d, a, b);
      ShapesWithoutRuntime(runtime, access, refresh);
      StaticEqualIffAgree(x, y, access, refresh);
      NoCollision(h, CodesOf(x), CodesOf(y), u, v);
      forall c: Address
        ensures CodeAt(x, c) == CodeAt(y, c)
      {
        RuntimeBinding(p, x, y, runtime, c);
      }
    }
  }
}
