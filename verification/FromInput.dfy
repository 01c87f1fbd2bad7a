/** The v4 policy constructor after the preset has been parsed: the roster, the pinned code and the declared storage. */
module FromInput {
  import opened Modular
  import opened BitFields
  import opened Bytes
  import opened State
  import opened Policy
  import opened Compact

  const ROSTER_SLOTS: nat := 7

  datatype MemberSlot = MemberSlot(slot: byte, state: byte, account: Address, joined: U64, retired: Option<U64>)

  datatype ConstructError =
    | BadRoster | BadPreset | PinMissing | PinMismatch | UncommittedCode | DomainMismatch | StorageOutside
    | GuardViolated

  // ----- The roster -----

  /** The slot sits at its index: unused and zeroed, active and not retired, or retired no earlier than it joined. */
  predicate SlotOk(s: MemberSlot, index: nat)
  {
    s.slot == index &&
    match s.state
    case 0 => s.account == 0 && s.joined == 0 && s.retired.None?
    case 1 => s.account != 0 && s.retired.None?
    case 2 => s.account != 0 && s.retired.Some? && s.retired.value >= s.joined
    case _ => false
  }

  function ActiveMask(slots: seq<MemberSlot>, n: nat): nat
    requires n <= |slots|
  {
    if n == 0 then 0 else ActiveMask(slots, n - 1) + if slots[n - 1].state == 1 then Exp2(n - 1) else 0
  }

  /** Slots ever used: active or retired. */
  function UsedMask(slots: seq<MemberSlot>, n: nat): nat
    requires n <= |slots|
  {
    if n == 0 then 0 else UsedMask(slots, n - 1) + if slots[n - 1].state != 0 then Exp2(n - 1) else 0
  }

  /** Which of the first n slots are active. */
  function Actives(slots: seq<MemberSlot>, n: nat): (r: seq<bool>)
    requires n <= |slots|
    ensures |r| == n
  {
    seq(n, i requires 0 <= i < n => slots[i].state == 1)
  }

  /** Which of the first n slots were ever used. */
  function Uses(slots: seq<MemberSlot>, n: nat): (r: seq<bool>)
    requires n <= |slots|
    ensures |r| == n
  {
    seq(n, i requires 0 <= i < n => slots[i].state != 0)
  }

  lemma {:induction false} MasksByBit(slots: seq<MemberSlot>, n: nat)
    requires n <= |slots|
    ensures ActiveMask(slots, n) == MaskOf(Actives(slots, n)) && UsedMask(slots, n) == MaskOf(Uses(slots, n))
  {
    if n > 0 {
      MasksByBit(slots, n - 1);
      assert Actives(slots, n)[..n - 1] == Actives(slots, n - 1) && Uses(slots, n)[..n - 1] == Uses(slots, n - 1);
    }
  }

  /** Bit i of the active mask says that slot i is active, bit i of the used mask that it was ever used. */
  lemma RosterBits(slots: seq<MemberSlot>, n: nat, i: nat)
    requires n <= |slots|
    ensures BitOf(ActiveMask(slots, n), i) <==> i < n && slots[i].state == 1
    ensures BitOf(UsedMask(slots, n), i) <==> i < n && slots[i].state != 0
  {
    MasksByBit(slots, n);
    MaskBits(Actives(slots, n), i);
    MaskBits(Uses(slots, n), i);
  }

  function ActiveAccounts(slots: seq<MemberSlot>, n: nat): set<Address>
    requires n <= |slots|
  {
    set i | 0 <= i < n && slots[i].state == 1 :: slots[i].account
  }

  ghost predicate RosterPrefixOk(slots: seq<MemberSlot>, n: nat)
    requires n <= |slots|
  {
    && (forall i {:trigger SlotOk(slots[i], i)} :: 0 <= i < n ==> SlotOk(slots[i], i))
    && (forall i, j :: 0 <= i < j < n && slots[i].state == 1 && slots[j].state == 1 ==>
        slots[i].account != slots[j].account)
  }

  ghost predicate RosterOk(root: seq<MemberSlot> -> B256, slots: seq<MemberSlot>, expected: B256, activeMask: nat,
                           usedMask: nat)
  {
    && |slots| == ROSTER_SLOTS && RosterPrefixOk(slots, |slots|) && root(slots) == expected
    && activeMask == ActiveMask(slots, |slots|) && usedMask == UsedMask(slots, |slots|)
  }

  method VerifyRoster(root: seq<MemberSlot> -> B256, slots: seq<MemberSlot>, expected: B256, activeMask: nat,
                      usedMask: nat)
    returns (r: Option<set<Address>>)
    ensures r.Some? <==> RosterOk(root, slots, expected, activeMask, usedMask)
    ensures r.Some? ==> r.value == ActiveAccounts(slots, |slots|)
  {
    if |slots| != ROSTER_SLOTS {
      return None;
    }
    var active: set<Address> := {};
    var computedActive, computedUsed := 0, 0;
    var i := 0;
    while i < |slots|
      invariant 0 <= i <= |slots| && RosterPrefixOk(slots, i)
      invariant active == ActiveAccounts(slots, i)
      invariant computedActive == ActiveMask(slots, i) && computedUsed == UsedMask(slots, i)
    {
      var s := slots[i];
      if !SlotOk(s, i) {
        return None;
      }
      if s.state == 1 {
        if s.account in active {
          return None;
        }
        active := active + {s.account};
        computedActive := computedActive + Exp2(i);
      }
      if s.state != 0 {
        computedUsed := computedUsed + Exp2(i);
      }
      i := i + 1;
    }
    if root(slots) != expected || computedActive != activeMask || computedUsed != usedMask {
      return None;
    }
    r := Some(active);
  }

  // ----- The constructor -----

  datatype DomainBinding = DomainBinding(contract: Address, slot: U256, expected: U256)

  /** A parsed preset: the policy it describes, before a roster and a state are known. */
  datatype Preset = Preset(policy: ExecutionPolicy, bindings: seq<DomainBinding>)

  datatype Roster = Roster(root: seq<MemberSlot> -> B256, slots: seq<MemberSlot>, expected: B256, activeMask: nat,
                           usedMask: nat)

  /** Every slot the witness declares belongs to a pinned account and a namespace, whatever its value. */
  ghost predicate DeclaredCovered(policy: ExecutionPolicy, listed: seq<AccountWitness>)
  {
    forall i :: 0 <= i < |listed| ==> AccountCovered(policy, listed[i])
  }

  ghost predicate AccountCovered(policy: ExecutionPolicy, w: AccountWitness)
  {
    w.storage != [] ==>
      && w.address in policy.codeHashes
      && forall j :: 0 <= j < |w.storage| ==> InNamespace(policy.namespaces, w.address, w.storage[j].slot)
  }

  ghost predicate DomainsMatch(preset: Preset, accounts: Accounts, n: nat)
    requires n <= |preset.bindings|
  {
    && (forall i :: 0 <= i < n ==>
          && preset.bindings[i].contract in preset.policy.codeHashes
          && SlotValue(accounts, preset.bindings[i].contract, preset.bindings[i].slot) == preset.bindings[i].expected)
    && (forall i, j :: 0 <= i < j < n ==> BindingKey(preset.bindings[i]) != BindingKey(preset.bindings[j]))
  }

  function BindingKey(b: DomainBinding): (Address, U256)
  {
    (b.contract, b.slot)
  }

  /** A certified preset pins some code and allows neither creation nor selfdestruct. */
  predicate PresetOk(policy: ExecutionPolicy)
  {
    policy.certified ==> policy.codeHashes != map[] && !policy.allowCreation && !policy.allowSelfDestruct
  }

  ghost predicate StateAccepted(p: Platform, preset: Preset, listed: seq<AccountWitness>, accounts: Accounts)
  {
    var policy := preset.policy;
    && PresetOk(policy)
    && PinsHold(p, policy.codeHashes, accounts)
    && (policy.certified ==> NoOtherCode(policy.codeHashes, accounts))
    && DomainsMatch(preset, accounts, |preset.bindings|)
    && (policy.certified ==> DeclaredCovered(policy, listed))
    && GuardsHold(policy, accounts)
  }

  ghost predicate Accepts(p: Platform, preset: Preset, roster: Roster, listed: seq<AccountWitness>, accounts: Accounts)
  {
    && RosterOk(roster.root, roster.slots, roster.expected, roster.activeMask, roster.usedMask)
    && StateAccepted(p, preset, listed, accounts)
  }

  /** The pin loop. */
  method CheckPins(p: Platform, codeHashes: map<Address, B256>, accounts: Accounts) returns (e: Option<ConstructError>)
    ensures e.None? <==> PinsHold(p, codeHashes, accounts)
  {
    var order := KeyOrder(codeHashes);
    var i := 0;
    while i < |order|
      invariant 0 <= i <= |order|
      invariant forall j :: 0 <= j < i ==>
                  order[j] in accounts && CodeHash(p, accounts[order[j]]) == codeHashes[order[j]]
    {
      if order[i] !in accounts {
        return Some(PinMissing);
      }
      if CodeHash(p, accounts[order[i]]) != codeHashes[order[i]] {
        return Some(PinMismatch);
      }
      i := i + 1;
    }
    e := None;
  }

  /** The domain-binding loop. */
  method CheckDomains(preset: Preset, accounts: Accounts) returns (ok: bool)
    ensures ok <==> DomainsMatch(preset, accounts, |preset.bindings|)
  {
    var keys: set<(Address, U256)> := {};
    var i := 0;
    while i < |preset.bindings|
      invariant 0 <= i <= |preset.bindings| && DomainsMatch(preset, accounts, i)
      invariant keys == set j | 0 <= j < i :: BindingKey(preset.bindings[j])
    {
      var b := preset.bindings[i];
      if b.contract !in preset.policy.codeHashes || BindingKey(b) in keys
          || SlotValue(accounts, b.contract, b.slot) != b.expected {
        return false;
      }
      keys := keys + {BindingKey(b)};
      i := i + 1;
    }
    ok := true;
  }

  method CheckAccount(policy: ExecutionPolicy, w: AccountWitness) returns (ok: bool)
    ensures ok <==> AccountCovered(policy, w)
  {
    if w.storage == [] {
      return true;
    }
    if w.address !in policy.codeHashes {
      return false;
    }
    var j := 0;
    while j < |w.storage|
      invariant 0 <= j <= |w.storage|
      invariant forall k :: 0 <= k < j ==> InNamespace(policy.namespaces, w.address, w.storage[k].slot)
    {
      if !InNamespace(policy.namespaces, w.address, w.storage[j].slot) {
        return false;
      }
      j := j + 1;
    }
    ok := true;
  }

  /** The declared-storage loop. */
  method CheckDeclared(policy: ExecutionPolicy, listed: seq<AccountWitness>) returns (ok: bool)
    ensures ok <==> DeclaredCovered(policy, listed)
  {
    var i := 0;
    while i < |listed|
      invariant 0 <= i <= |listed|
      invariant forall j :: 0 <= j < i ==> AccountCovered(policy, listed[j])
    {
      var covered := CheckAccount(policy, listed[i]);
      if !covered {
        return false;
      }
      i := i + 1;
    }
    ok := true;
  }

  /** The checks of the state, in the source's order. */
  method CheckState(p: Platform, preset: Preset, listed: seq<AccountWitness>, accounts: Accounts)
    returns (e: Option<ConstructError>)
    ensures e.None? <==> StateAccepted(p, preset, listed, accounts)
  {
    var policy := preset.policy;
    if !PresetOk(policy) {
      return Some(BadPreset);
    }
    e := CheckPins(p, policy.codeHashes, accounts);
    if e.Some? {
      return;
    }
    var ok := true;
    if policy.certified {
      ok := ScanOtherCode(policy.codeHashes, accounts);
    }
    if !ok {
      return Some(UncommittedCode);
    }
    ok := CheckDomains(preset, accounts);
    if !ok {
      return Some(DomainMismatch);
    }
    if policy.certified {
      ok := CheckDeclared(policy, listed);
    }
    if !ok {
      return Some(StorageOutside);
    }
    if !GuardsHold(policy, accounts) {
      return Some(GuardViolated);
    }
  }

  method Construct(p: Platform, preset: Preset, roster: Roster, listed: seq<AccountWitness>, accounts: Accounts)
    returns (r: Result<ExecutionPolicy, ConstructError>)
    ensures r.Ok? <==> Accepts(p, preset, roster, listed, accounts)
    ensures r.Ok? ==> r.value == preset.policy.(activeMembers := ActiveAccounts(roster.slots, |roster.slots|))
  {
    var active := VerifyRoster(roster.root, roster.slots, roster.expected, roster.activeMask, roster.usedMask);
    if active.None? {
      return Err(BadRoster);
    }
    var error := CheckState(p, preset, listed, accounts);
    if error.Some? {
      return Err(error.value);
    }
    r := Ok(preset.policy.(activeMembers := active.value));
  }

  /** A certified room starts with all its resident storage inside the declared namespaces. */
  lemma AcceptedStartsCovered(p: Platform, preset: Preset, roster: Roster, listed: seq<AccountWitness>, db: Db)
    requires Accepts(p, preset, roster, listed, db.accounts) && preset.policy.certified
    requires db.accessAccounts.Some? && db.accessStorage.Some?
    requires Represents(db.accounts, db.accessAccounts.value, db.accessStorage.value, listed, |listed|)
    ensures NamespacesCover(preset.policy.namespaces, db.accounts)
  {
    forall a, k | a in db.accounts && k in db.accounts[a].storage
      ensures InNamespace(preset.policy.namespaces, a, k)
    {
      assert a in db.accessAccounts.value;
      var i :| 0 <= i < |listed| && listed[i].address == a;
      assert AccountRepresented(db.accounts, db.accessStorage.value, listed[i]);
      assert k in ResidentSlots(listed[i].storage);
      var j :| 0 <= j < |listed[i].storage| && listed[i].storage[j].value != 0 && listed[i].storage[j].slot == k;
    }
  }

  /** Once the constructor accepted a state, the prepared-code cache installs on any state with the same code. */
  lemma InstallCannotFail(p: Platform, preset: Preset, roster: Roster, listed: seq<AccountWitness>, accounts: Accounts,
                          later: Db)
    requires Accepts(p, preset, roster, listed, accounts)
    requires forall a :: a in accounts ==> a in later.accounts && later.accounts[a].code == accounts[a].code
    ensures InstallPrepared(p, later, preset.policy.codeHashes).Some?
  {
  }
}
