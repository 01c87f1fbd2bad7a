/** The v5 policy constructor, and the containment invariant it and the post-state check keep over runs of batches. */
module FromV5 {
  import opened Bytes
  import opened State
  import opened FrameObserver
  import opened Policy
  import opened Compact

  datatype CodePin = CodePin(address: Address, hash: B256)
  datatype CallSpec = CallSpec(caller: Address, target: Address, selectors: seq<Bytes>, kinds: seq<byte>)
  datatype Import = Import(adapter: B256, version: B256, source: Address, sourceKey: U256, contract: Address,
                           slot: U256)
  datatype Registry = Registry(contract: Address, root: U256, epoch: U256, count: U256, capacity: U256)
  datatype ExitAsset = ExitAsset(asset: Address, kind: byte, token: Address, balanceSlot: U256)
  datatype Exit = Exit(queue: Address, fallback: Address, countSlot: U256, recordsSlot: U256, assets: seq<ExitAsset>)

  datatype PolicyV5 = PolicyV5(
    stateCommitment: byte,
    maxBlocks: U64,
    maxTransactions: U64,
    maxGas: U64,
    maxMemory: U64,
    allowCreation: bool,
    allowSelfDestruct: bool,
    code: seq<CodePin>,
    calls: seq<CallSpec>,
    storage: seq<Namespace>,
    imports: seq<Import>,
    registry: Option<Registry>,
    exit: Option<Exit>)

  datatype PolicyError =
    | HashMismatch | EnvelopeInvalid | CreationPermitted | BadCodePin | PinnedAccountAbsent | CodeMismatch | NoCode
    | UncommittedCode | BadCallRule | BadSelectors | BadKinds | NoCallRules | BadNamespace | StorageOutside
    | ImportOutside | BadRegistry | BadExit | MemoryTooLarge

  const MAX_EXIT_ASSETS: nat := 256

  // ----- What the constructor accepts -----

  predicate EnvelopeOk(v: PolicyV5, members: set<Address>)
  {
    && v.stateCommitment <= 1 && 0 < v.maxBlocks <= 64 && 0 < v.maxTransactions <= 4096 && v.maxGas > 0
    && v.maxMemory > 0
    && members != {}
  }

  ghost predicate PinsSorted(code: seq<CodePin>, n: nat)
    requires n <= |code|
  {
    && (forall i :: 0 <= i < n ==> code[i].address != 0 && code[i].hash != Zeros(32))
    && (forall i, j :: 0 <= i < j < n ==> code[i].address < code[j].address)
  }

  function PinMap(code: seq<CodePin>, n: nat): map<Address, B256>
    requires n <= |code|
  {
    if n == 0 then map[] else PinMap(code, n - 1)[code[n - 1].address := code[n - 1].hash]
  }

  ghost predicate Unique<T>(s: seq<T>)
  {
    forall i, j :: 0 <= i < j < |s| ==> s[i] != s[j]
  }

  function KindFrom(kind: byte): CallKind
  {
    if kind == 0 then Call else if kind == 1 then StaticCall else DelegateCall
  }

  ghost predicate CallOk(pins: map<Address, B256>, c: CallSpec)
  {
    && c.target != 0 && c.target in pins && (c.caller == ACTIVE_MEMBER || c.caller in pins)
    && c.selectors != [] && Unique(c.selectors)
    && c.kinds != [] && Unique(c.kinds) && (forall k :: k in c.kinds ==> k <= 2)
  }

  ghost predicate CallsOk(pins: map<Address, B256>, calls: seq<CallSpec>, n: nat)
    requires n <= |calls|
  {
    && (forall i :: 0 <= i < n ==> CallOk(pins, calls[i]))
    && (forall i, j :: 0 <= i < j < n ==> (calls[i].caller, calls[i].target) != (calls[j].caller, calls[j].target))
  }

  function ToRule(c: CallSpec): CallRule
  {
    CallRule(c.caller, c.target, set s | s in c.selectors, set k | k in c.kinds :: KindFrom(k))
  }

  ghost predicate NamespacesOk(pins: map<Address, B256>, storage: seq<Namespace>, n: nat)
    requires n <= |storage|
  {
    && (forall i :: 0 <= i < n ==> storage[i].bits <= 256 && storage[i].contract in pins)
    && (forall i, j :: 0 <= i < j < n ==> storage[i].(writable := true) != storage[j].(writable := true))
  }

  predicate WritableSlot(storage: seq<Namespace>, a: Address, slot: U256)
  {
    exists i :: 0 <= i < |storage| && storage[i].writable && Covers(storage[i], a, slot)
  }

  predicate ImportsOk(v: PolicyV5)
  {
    forall i :: 0 <= i < |v.imports| ==> WritableSlot(v.storage, v.imports[i].contract, v.imports[i].slot)
  }

  predicate ImportsTo(v: PolicyV5, a: Address, slot: U256)
  {
    exists i :: 0 <= i < |v.imports| && v.imports[i].contract == a && v.imports[i].slot == slot
  }

  predicate RegistryOk(v: PolicyV5, pins: map<Address, B256>)
  {
    v.registry.Some? &&
    var r := v.registry.value;
    var slots := {r.root, r.epoch, r.count, r.capacity};
    && r.contract != 0 && r.contract in pins && |slots| == 4
    && forall s :: s in slots ==> WritableSlot(v.storage, r.contract, s) && !ImportsTo(v, r.contract, s)
  }

  predicate ExitAssetOk(pins: map<Address, B256>, e: ExitAsset)
  {
    if e.kind == 0 then e.asset == 0 && e.token == 0 && e.balanceSlot == 0
    else e.kind == 1 && e.asset != 0 && e.token != 0 && e.token in pins
  }

  predicate ExitOk(v: PolicyV5, pins: map<Address, B256>, registry: Address)
  {
    v.exit.Some? ==>
      var e := v.exit.value;
      && e.queue != 0 && e.queue in pins && e.queue != registry && e.fallback != 0
      && WritableSlot(v.storage, e.queue, e.countSlot) && WritableSlot(v.storage, e.queue, e.recordsSlot)
      && (forall i :: 0 <= i < |v.imports| ==> v.imports[i].contract != e.queue)
      && |e.assets| <= MAX_EXIT_ASSETS
      && (forall i :: 0 < i < |e.assets| ==> e.assets[i - 1].asset < e.assets[i].asset)
      && (forall i :: 0 <= i < |e.assets| ==> ExitAssetOk(pins, e.assets[i]))
  }

  /** The checks that look at the policy alone. */
  ghost predicate ShapeOk(v: PolicyV5, members: set<Address>, usizeMax: nat)
  {
    var pins := PinMap(v.code, |v.code|);
    && EnvelopeOk(v, members) && !v.allowCreation && !v.allowSelfDestruct
    && PinsSorted(v.code, |v.code|) && v.code != []
    && CallsOk(pins, v.calls, |v.calls|) && v.calls != []
    && NamespacesOk(pins, v.storage, |v.storage|)
    && ImportsOk(v) && RegistryOk(v, pins) && ExitOk(v, pins, v.registry.value.contract)
    && v.maxMemory <= usizeMax
  }

  /** The checks that look at the state. */
  ghost predicate StateOk(p: Platform, v: PolicyV5, accounts: Accounts)
  {
    var pins := PinMap(v.code, |v.code|);
    PinsHold(p, pins, accounts) && NoOtherCode(pins, accounts) && NamespacesCover(v.storage, accounts)
  }

  function Resolved(v: PolicyV5, members: set<Address>, membershipChanged: bool,
                    precompiles: set<Address>): ExecutionPolicy
  {
    ExecutionPolicy(true, members, PinMap(v.code, |v.code|),
                    seq(|v.calls|, i requires 0 <= i < |v.calls| => ToRule(v.calls[i])), v.storage, [], [],
                        membershipChanged,
                    false, false, v.maxGas, v.maxMemory, precompiles)
  }

  // ----- The constructor -----

  lemma {:induction false} PinMapKeys(code: seq<CodePin>, n: nat, a: Address)
    requires n <= |code|
    ensures a in PinMap(code, n) <==> exists i :: 0 <= i < n && code[i].address == a
    ensures PinsSorted(code, n) ==> forall i :: 0 <= i < n && code[i].address == a ==>
              a in PinMap(code, n) && PinMap(code, n)[a] == code[i].hash
  {
    if n > 0 {
      PinMapKeys(code, n - 1, a);
    }
  }

  /** The first n pins are present with the pinned code. */
  ghost predicate PinsMatch(p: Platform, code: seq<CodePin>, n: nat, accounts: Accounts)
    requires n <= |code|
  {
    forall i :: 0 <= i < n ==> code[i].address in accounts && CodeHash(p, accounts[code[i].address]) == code[i].hash
  }

  lemma PinsMatchExact(p: Platform, code: seq<CodePin>, accounts: Accounts)
    requires PinsSorted(code, |code|)
    ensures PinsMatch(p, code, |code|, accounts) <==> PinsHold(p, PinMap(code, |code|), accounts)
  {
    var pins := PinMap(code, |code|);
    forall i | 0 <= i < |code|
      ensures code[i].address in pins && pins[code[i].address] == code[i].hash
    {
      PinMapKeys(code, |code|, code[i].address);
    }
    forall a | a in pins
      ensures exists i :: 0 <= i < |code| && code[i].address == a
    {
      PinMapKeys(code, |code|, a);
    }
  }

  method PinCode(p: Platform, code: seq<CodePin>, accounts: Accounts)
    returns (r: Result<map<Address, B256>, PolicyError>)
    ensures r.Ok? <==> PinsSorted(code, |code|) && PinsHold(p, PinMap(code, |code|), accounts)
    ensures r.Ok? ==> r.value == PinMap(code, |code|)
  {
    var pins: map<Address, B256> := map[];
    var i := 0;
    while i < |code|
      invariant 0 <= i <= |code| && pins == PinMap(code, i)
      invariant PinsSorted(code, i) && PinsMatch(p, code, i, accounts)
    {
      var c := code[i];
      PinMapKeys(code, i, c.address);
      if c.address == 0 || c.hash == Zeros(32) || (i > 0 && code[i - 1].address >= c.address) || c.address in pins {
        return Err(BadCodePin);
      }
      if c.address !in accounts || CodeHash(p, accounts[c.address]) != c.hash {
        NotPinned(p, code, i, accounts);
        return Err(if c.address !in accounts then PinnedAccountAbsent else CodeMismatch);
      }
      pins := pins[c.address := c.hash];
      i := i + 1;
    }
    PinsMatchExact(p, code, accounts);
    r := Ok(pins);
  }

  lemma NotPinned(p: Platform, code: seq<CodePin>, i: nat, accounts: Accounts)
    requires i < |code| && !(code[i].address in accounts && CodeHash(p, accounts[code[i].address]) == code[i].hash)
    ensures !(PinsSorted(code, |code|) && PinsHold(p, PinMap(code, |code|), accounts))
  {
    if PinsSorted(code, |code|) {
      PinsMatchExact(p, code, accounts);
    }
  }

  method CheckUnique<T(==)>(s: seq<T>) returns (ok: bool)
    ensures ok <==> Unique(s)
  {
    var seen: set<T> := {};
    var i := 0;
    while i < |s|
      invariant 0 <= i <= |s|
      invariant seen == (set j | 0 <= j < i :: s[j])
      invariant forall j, k :: 0 <= j < k < i ==> s[j] != s[k]
    {
      if s[i] in seen {
        return false;
      }
      seen := seen + {s[i]};
      i := i + 1;
    }
    ok := true;
  }

  method ResolveCall(pins: map<Address, B256>, c: CallSpec) returns (r: Result<CallRule, PolicyError>)
    ensures r.Ok? <==> CallOk(pins, c)
    ensures r.Ok? ==> r.value == ToRule(c)
  {
    if c.target == 0 || c.target !in pins || (c.caller != ACTIVE_MEMBER && c.caller !in pins) {
      return Err(BadCallRule);
    }
    var distinct := CheckUnique(c.selectors);
    if c.selectors == [] || !distinct {
      return Err(BadSelectors);
    }
    distinct := CheckUnique(c.kinds);
    if c.kinds == [] || !distinct || exists k :: k in c.kinds && k > 2 {
      return Err(BadKinds);
    }
    r := Ok(ToRule(c));
  }

  method ResolveCalls(pins: map<Address, B256>, calls: seq<CallSpec>) returns (r: Result<seq<CallRule>, PolicyError>)
    ensures r.Ok? <==> CallsOk(pins, calls, |calls|)
    ensures r.Ok? ==> |r.value| == |calls| && forall i :: 0 <= i < |calls| ==> r.value[i] == ToRule(calls[i])
  {
    var rules: seq<CallRule> := [];
    var keys: set<(Address, Address)> := {};
    var i := 0;
    while i < |calls|
      invariant 0 <= i <= |calls| && |rules| == i
      invariant keys == (set j | 0 <= j < i :: (calls[j].caller, calls[j].target))
      invariant CallsOk(pins, calls, i)
      invariant forall j :: 0 <= j < i ==> rules[j] == ToRule(calls[j])
    {
      if (calls[i].caller, calls[i].target) in keys {
        return Err(BadCallRule);
      }
      var resolved := ResolveCall(pins, calls[i]);
      if resolved.Err? {
        return Err(resolved.error);
      }
      keys := keys + {(calls[i].caller, calls[i].target)};
      rules := rules + [resolved.value];
      i := i + 1;
    }
    r := Ok(rules);
  }

  method CheckNamespaces(pins: map<Address, B256>, storage: seq<Namespace>) returns (ok: bool)
    ensures ok <==> NamespacesOk(pins, storage, |storage|)
  {
    var keys: set<Namespace> := {};
    var i := 0;
    while i < |storage|
      invariant 0 <= i <= |storage|
      invariant keys == (set j | 0 <= j < i :: storage[j].(writable := true))
      invariant NamespacesOk(pins, storage, i)
    {
      var key := storage[i].(writable := true);
      if storage[i].bits > 256 || storage[i].contract !in pins || key in keys {
        return false;
      }
      keys := keys + {key};
      i := i + 1;
    }
    ok := true;
  }

  method ScanStorage(namespaces: seq<Namespace>, a: Address, storage: map<U256, U256>) returns (ok: bool)
    ensures ok <==> forall k :: k in storage ==> InNamespace(namespaces, a, k)
  {
    var keys := SlotKeys(storage);
    var i := 0;
    while i < |keys|
      invariant 0 <= i <= |keys|
      invariant forall j :: 0 <= j < i ==> InNamespace(namespaces, a, keys[j])
    {
      if !InNamespace(namespaces, a, keys[i]) {
        return false;
      }
      i := i + 1;
    }
    ok := true;
  }

  /** The scan of resident storage, account by account. */
  method ScanNamespaces(namespaces: seq<Namespace>, accounts: Accounts) returns (ok: bool)
    ensures ok <==> NamespacesCover(namespaces, accounts)
  {
    var order := KeyOrder(accounts);
    var i := 0;
    while i < |order|
      invariant 0 <= i <= |order|
      invariant forall j, k :: 0 <= j < i && k in accounts[order[j]].storage ==> InNamespace(namespaces, order[j], k)
    {
      var covered := ScanStorage(namespaces, order[i], accounts[order[i]].storage);
      if !covered {
        return false;
      }
      i := i + 1;
    }
    ok := true;
  }

  /** The constructor accepts exactly well-shaped policies over states with the pinned code, no other code, and all
      storage in declared namespaces. */
  method Construct(p: Platform, hashOf: PolicyV5 -> B256, usizeMax: nat, v: PolicyV5, expected: B256,
                   members: set<Address>, accounts: Accounts, membershipChanged: bool, precompiles: set<Address>)
    returns (r: Result<ExecutionPolicy, PolicyError>)
    ensures r.Ok? <==> hashOf(v) == expected && ShapeOk(v, members, usizeMax) && StateOk(p, v, accounts)
    ensures r.Ok? ==> r.value == Resolved(v, members, membershipChanged, precompiles)
  {
    if hashOf(v) != expected {
      return Err(HashMismatch);
    }
    if !EnvelopeOk(v, members) {
      return Err(EnvelopeInvalid);
    }
    if v.allowCreation || v.allowSelfDestruct {
      return Err(CreationPermitted);
    }
    var pinned := PinCode(p, v.code, accounts);
    if pinned.Err? {
      return Err(pinned.error);
    }
    var pins := pinned.value;
    if pins == map[] {
      assert v.code == [] by {
        if v.code != [] {
          PinMapKeys(v.code, |v.code|, v.code[0].address);
        }
      }
      return Err(NoCode);
    }
    var ok := ScanOtherCode(pins, accounts);
    if !ok {
      return Err(UncommittedCode);
    }
    var calls := ResolveCalls(pins, v.calls);
    if calls.Err? {
      return Err(calls.error);
    }
    if calls.value == [] {
      return Err(NoCallRules);
    }
    var spaces := CheckNamespaces(pins, v.storage);
    if !spaces {
      return Err(BadNamespace);
    }
    ok := ScanNamespaces(v.storage, accounts);
    if !ok {
      return Err(StorageOutside);
    }
    if !ImportsOk(v) {
      return Err(ImportOutside);
    }
    if !RegistryOk(v, pins) {
      return Err(BadRegistry);
    }
    if !ExitOk(v, pins, v.registry.value.contract) {
      return Err(BadExit);
    }
    if v.maxMemory > usizeMax {
      return Err(MemoryTooLarge);
    }
    r := Ok(ExecutionPolicy(true, members, pins, calls.value, v.storage, [], [], membershipChanged, false, false,
                            v.maxGas, v.maxMemory, precompiles));
    assert calls.value == Resolved(v, members, membershipChanged, precompiles).callRules;
  }

  // ----- Containment over runs of batches -----

  /** Zero-valued resident slots, which a commit never leaves, lie in a namespace. */
  ghost predicate ZerosCovered(namespaces: seq<Namespace>, accounts: Accounts)
  {
    forall a, k :: a in accounts && k in accounts[a].storage && accounts[a].storage[k] == 0 ==>
          InNamespace(namespaces, a, k)
  }

  lemma WritableIsCovered(policy: ExecutionPolicy, a: Address, k: U256)
    requires Writable(policy, a, k)
    ensures InNamespace(policy.namespaces, a, k)
  {
    var i :| 0 <= i < |policy.namespaces| && policy.namespaces[i].writable && Covers(policy.namespaces[i], a, k);
  }

  lemma ChangedSlotCovered(p: Platform, policy: ExecutionPolicy, pre: Accounts, post: Accounts, a: Address, k: U256)
    requires policy.certified && NamespacesCover(policy.namespaces, pre)
             && PostStateOk(p, policy, SnapshotOf(pre), post)
    requires SlotValue(post, a, k) != 0
    ensures InNamespace(policy.namespaces, a, k)
  {
    AcceptedPostState(p, policy, SnapshotOf(pre), post);
    if SnapshotValue(SnapshotOf(pre), a, k) != SlotValue(post, a, k) {
      WritableIsCovered(policy, a, k);
    }
  }

  /** After an accepted transition all storage is again in declared namespaces, exactly when the zero-valued slots
      are. */
  lemma NamespacesAgain(p: Platform, policy: ExecutionPolicy, pre: Accounts, post: Accounts)
    requires policy.certified && NamespacesCover(policy.namespaces, pre)
             && PostStateOk(p, policy, SnapshotOf(pre), post)
    ensures NamespacesCover(policy.namespaces, post) <==> ZerosCovered(policy.namespaces, post)
  {
    forall a, k | a in post && k in post[a].storage && post[a].storage[k] != 0
      ensures InNamespace(policy.namespaces, a, k)
    {
      ChangedSlotCovered(p, policy, pre, post, a, k);
    }
  }

  /** Some address the policy does not pin has code after a transition and had none before it. */
  ghost predicate GainsCode(pins: map<Address, B256>, pre: Accounts, post: Accounts)
  {
    exists a: Address :: a !in pins && CodeAt(pre, a) == [] && CodeAt(post, a) != []
  }

  lemma NoOtherCodeAgain(pins: map<Address, B256>, pre: Accounts, post: Accounts)
    requires NoOtherCode(pins, pre)
    ensures NoOtherCode(pins, post) <==> !GainsCode(pins, pre, post)
  {
    if !NoOtherCode(pins, post) {
      var a :| a in post && post[a].code != [] && a !in pins;
      assert CodeAt(pre, a) == [] && CodeAt(post, a) != [];
    }
  }

  /** The constructor's state checks pass again exactly when zero slots are covered and no unpinned address gained
      code. */
  lemma StateOkAgain(p: Platform, v: PolicyV5, policy: ExecutionPolicy, pre: Accounts, post: Accounts)
    requires policy.certified && policy.codeHashes == PinMap(v.code, |v.code|) && policy.namespaces == v.storage
    requires StateOk(p, v, pre) && PostStateOk(p, policy, SnapshotOf(pre), post)
    ensures StateOk(p, v, post) <==> ZerosCovered(v.storage, post) && !GainsCode(policy.codeHashes, pre, post)
  {
    NamespacesAgain(p, policy, pre, post);
    NoOtherCodeAgain(policy.codeHashes, pre, post);
  }

  /** The post-state check alone does not see code appearing at an unpinned address. */
  lemma NewCodeIsNotSeen(p: Platform, policy: ExecutionPolicy, pre: Accounts, a: Address, code: Bytes)
    requires policy.certified && code != [] && a !in pre && a !in policy.codeHashes
             && PinsHold(p, policy.codeHashes, pre)
    requires !policy.membershipChanged
    ensures var post := pre[a := AccountRecord(1, 0, code, map[])];
            PostStateOk(p, policy, SnapshotOf(pre), post) && !NoOtherCode(policy.codeHashes, post)
  {
  }

  /** A zero-valued resident slot outside every namespace passes the post-state check but not the constructor. */
  lemma ZeroSlotIsNotSeen(p: Platform, policy: ExecutionPolicy, pre: Accounts, a: Address, k: U256)
    requires policy.certified && a in pre && k !in pre[a].storage && PinsHold(p, policy.codeHashes, pre)
             && !policy.membershipChanged
    requires !InNamespace(policy.namespaces, a, k)
    ensures var post := pre[a := pre[a].(storage := pre[a].storage[k := 0])];
            PostStateOk(p, policy, SnapshotOf(pre), post) && !NamespacesCover(policy.namespaces, post)
  {
    var post := pre[a := pre[a].(storage := pre[a].storage[k := 0])];
    assert k in post[a].storage;
  }

  /** No code appears at an address that had none. */
  ghost predicate CodeKept(pre: Accounts, post: Accounts)
  {
    forall a :: a in post && post[a].code != [] ==> a in pre && pre[a].code != []
  }

  ghost predicate NoZeroSlots(accounts: Accounts)
  {
    forall a :: a in accounts ==> !accounts[a].HasZeroSlot()
  }

  /** One accepted batch as the next one sees it: checked post-state, no stored zeros, no new code. */
  ghost predicate AcceptedTransition(p: Platform, policy: ExecutionPolicy, pre: Accounts, post: Accounts)
  {
    PostStateOk(p, policy, SnapshotOf(pre), post) && NoZeroSlots(post) && CodeKept(pre, post)
  }

  lemma TransitionKeepsStateOk(p: Platform, v: PolicyV5, policy: ExecutionPolicy, pre: Accounts, post: Accounts)
    requires policy.certified && policy.codeHashes == PinMap(v.code, |v.code|) && policy.namespaces == v.storage
    requires StateOk(p, v, pre) && AcceptedTransition(p, policy, pre, post)
    ensures StateOk(p, v, post)
  {
    StateOkAgain(p, v, policy, pre, post);
  }

  /** Containment holds in every state of every run of accepted batches under one policy commitment; the roster may
      change. */
  lemma {:induction false} ContainmentOverRuns(p: Platform, v: PolicyV5, policies: seq<ExecutionPolicy>,
                                               states: seq<Accounts>, n: nat)
    requires |states| == |policies| + 1 && n < |states| && StateOk(p, v, states[0])
    requires forall i :: 0 <= i < |policies| ==>
      policies[i].certified && policies[i].codeHashes == PinMap(v.code, |v.code|) && policies[i].namespaces == v.storage
    requires forall i :: 0 <= i < |policies| ==> AcceptedTransition(p, policies[i], states[i], states[i + 1])
    ensures StateOk(p, v, states[n])
  {
    if n > 0 {
      ContainmentOverRuns(p, v, policies, states, n - 1);
      TransitionKeepsStateOk(p, v, policies[n - 1], states[n - 1], states[n]);
    }
  }
}
