/** The resource limits of cold preparation: on its input, and on the state its setup blocks leave. */
module ColdLimits {
  import opened Bytes
  import opened State
  import opened Compact
  import opened ColdShapes
  import opened BlockData

  const MAX_COLD_WITNESS_BYTES: nat := 8388608
  const MAX_COLD_BLOCKS: nat := 32
  const MAX_COLD_TRANSACTIONS: nat := 256

  /** The commitments a cold proof carries for its bundle. */
  datatype Identity = Identity(bundle: B256, preset: B256, manifest: B256, program: B256, artifacts: B256,
                               callTargets: B256)

  /** Setup blocks carry no block-hash history. */
  type SetupBlock = b: ChainBlock | b.history == []
    witness ChainBlock(0, Env(0, 0, 0, 0, 0, Zeros(32), 0, 0, 0), [], Zeros(32), [])

  datatype ColdInput = ColdInput(
    witnessBytes: nat,
    identity: Identity,
    initialState: seq<(Address, AccountState)>,
    setupBlocks: seq<SetupBlock>,
    runtime: seq<RuntimeCode>,
    access: seq<Access>,
    refresh: seq<Refresh>,
    initialRoot: B256,
    initializedRoot: B256)

  // ----- The input -----

  function TxCount(blocks: seq<ChainBlock>, n: nat): nat
    requires n <= |blocks|
  {
    if n == 0 then 0 else TxCount(blocks, n - 1) + |blocks[n - 1].rawTxs|
  }

  /** Strictly ascending, distinct, non-zero slots. */
  ghost predicate SlotsCanonical(storage: seq<(U256, U256)>)
  {
    && (forall i, j :: 0 <= i < j < |storage| ==> storage[i].0 < storage[j].0)
    && (forall i :: 0 <= i < |storage| ==> storage[i].1 != 0)
  }

  function InitialSlots(state: seq<(Address, AccountState)>, n: nat): nat
    requires n <= |state|
  {
    if n == 0 then 0 else InitialSlots(state, n - 1) + |state[n - 1].1.storage|
  }

  function InitialCode(state: seq<(Address, AccountState)>, n: nat): nat
    requires n <= |state|
  {
    if n == 0 then 0 else InitialCode(state, n - 1) + |state[n - 1].1.code|
  }

  /** The initial state is capped, and every account and slot appears once, in order and non-zero. */
  ghost predicate InitialStateOk(state: seq<(Address, AccountState)>)
  {
    && |state| <= MAX_ACCOUNTS && (forall i, j :: 0 <= i < j < |state| ==> state[i].0 < state[j].0)
    && (forall i :: 0 <= i < |state| ==> SlotsCanonical(state[i].1.storage))
    && InitialSlots(state, |state|) <= MAX_STORAGE_SLOTS && InitialCode(state, |state|) <= MAX_CODE_BYTES
  }

  ghost predicate InputOk(input: ColdInput)
  {
    var id := input.identity;
    && 5 <= input.witnessBytes <= MAX_COLD_WITNESS_BYTES
    && id.bundle != Zeros(32) && id.preset != Zeros(32) && id.manifest != Zeros(32) && id.program != Zeros(32)
    && input.runtime != [] && 1 <= |input.setupBlocks| <= MAX_COLD_BLOCKS
    && 1 <= TxCount(input.setupBlocks, |input.setupBlocks|) <= MAX_COLD_TRANSACTIONS
    && InitialStateOk(input.initialState)
  }

  method CheckSlots(storage: seq<(U256, U256)>) returns (ok: bool)
    ensures ok <==> SlotsCanonical(storage)
  {
    var i := 0;
    while i < |storage|
      invariant 0 <= i <= |storage| && SlotsCanonical(storage[..i])
    {
      if storage[i].1 == 0 || (i > 0 && storage[i - 1].0 >= storage[i].0) {
        return false;
      }
      i := i + 1;
      assert storage[..i] == storage[..i - 1] + [storage[i - 1]];
    }
    assert storage[..i] == storage;
    ok := true;
  }

  method CheckAddresses(state: seq<(Address, AccountState)>) returns (ok: bool)
    ensures ok <==> forall i, j :: 0 <= i < j < |state| ==> state[i].0 < state[j].0
  {
    var i := 1;
    while i < |state|
      invariant 1 <= i
      invariant i <= |state| ==> forall j, k :: 0 <= j < k < i ==> state[j].0 < state[k].0
      invariant i > |state| ==> |state| == 0
    {
      if state[i - 1].0 >= state[i].0 {
        return false;
      }
      i := i + 1;
    }
    ok := true;
  }

  method CheckInitialState(state: seq<(Address, AccountState)>) returns (ok: bool)
    ensures ok <==> InitialStateOk(state)
  {
    var ascending := CheckAddresses(state);
    if |state| > MAX_ACCOUNTS || !ascending {
      return false;
    }
    var slots, code := 0, 0;
    var i := 0;
    while i < |state|
      invariant 0 <= i <= |state| && slots == InitialSlots(state, i) && code == InitialCode(state, i)
      invariant forall j :: 0 <= j < i ==> SlotsCanonical(state[j].1.storage)
    {
      var canonical := CheckSlots(state[i].1.storage);
      if !canonical {
        return false;
      }
      slots := slots + |state[i].1.storage|;
      code := code + |state[i].1.code|;
      i := i + 1;
    }
    ok := slots <= MAX_STORAGE_SLOTS && code <= MAX_CODE_BYTES;
  }

  method CheckInput(input: ColdInput) returns (ok: bool)
    ensures ok <==> InputOk(input)
  {
    var id := input.identity;
    if !(5 <= input.witnessBytes <= MAX_COLD_WITNESS_BYTES) || input.runtime == []
       || id.bundle == Zeros(32) || id.preset == Zeros(32) || id.manifest == Zeros(32) || id.program == Zeros(32)
       || !(1 <= |input.setupBlocks| <= MAX_COLD_BLOCKS)
       || !(1 <= TxCount(input.setupBlocks, |input.setupBlocks|) <= MAX_COLD_TRANSACTIONS) {
      return false;
    }
    ok := CheckInitialState(input.initialState);
  }

  // ----- The initialized state -----

  /** The slots and code bytes of the first n accounts of an order. */
  function SlotsIn(accounts: Accounts, order: seq<Address>, n: nat): nat
    requires n <= |order| && forall i :: 0 <= i < |order| ==> order[i] in accounts
  {
    if n == 0 then 0 else SlotsIn(accounts, order, n - 1) + |accounts[order[n - 1]].storage|
  }

  function CodeIn(accounts: Accounts, order: seq<Address>, n: nat): nat
    requires n <= |order| && forall i :: 0 <= i < |order| ==> order[i] in accounts
  {
    if n == 0 then 0 else CodeIn(accounts, order, n - 1) + |accounts[order[n - 1]].code|
  }

  predicate WithinCaps(accounts: Accounts)
  {
    var order := KeyOrder(accounts);
    && |accounts| <= MAX_ACCOUNTS && SlotsIn(accounts, order, |order|) <= MAX_STORAGE_SLOTS
    && CodeIn(accounts, order, |order|) <= MAX_CODE_BYTES
  }

  method CheckCaps(accounts: Accounts) returns (ok: bool)
    ensures ok <==> WithinCaps(accounts)
  {
    var order := KeyOrder(accounts);
    var slots, code := 0, 0;
    var i := 0;
    while i < |order|
      invariant 0 <= i <= |order| && slots == SlotsIn(accounts, order, i) && code == CodeIn(accounts, order, i)
    {
      slots := slots + |accounts[order[i]].storage|;
      code := code + |accounts[order[i]].code|;
      i := i + 1;
    }
    ok := |accounts| <= MAX_ACCOUNTS && slots <= MAX_STORAGE_SLOTS && code <= MAX_CODE_BYTES;
  }
}
