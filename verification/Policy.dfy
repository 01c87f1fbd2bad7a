/** The certified execution policy: what may be called, with which arguments, and what the terminal state may look
    like. */
module Policy {
  import opened Modular
  import opened Bytes
  import opened State
  import opened FrameObserver
  import opened Gadgets

  const ACTIVE_MEMBER: Address := 0

  datatype CallRule = CallRule(caller: Address, target: Address, selectors: set<Bytes>, kinds: set<CallKind>)
  datatype Namespace = Namespace(contract: Address, prefix: U256, bits: nat, writable: bool)
  datatype ArgumentRule = ArgumentRule(target: Address, selector: Bytes, words: seq<byte>)
  datatype Guard = Guard(contract: Address, slot: U256, offset: nat, width: nat, allowed: set<U256>)

  datatype ExecutionPolicy = ExecutionPolicy(
    certified: bool,
    activeMembers: set<Address>,
    codeHashes: map<Address, B256>,
    callRules: seq<CallRule>,
    namespaces: seq<Namespace>,
    argumentRules: seq<ArgumentRule>,
    guards: seq<Guard>,
    membershipChanged: bool,
    allowCreation: bool,
    allowSelfDestruct: bool,
    maxGasPerBlock: U64,
    maxMemoryBytes: nat,
    precompiles: set<Address>)

  // ----- Slot prefixes -----

  /** The high `bits` bits agree; Rust's shift by the full width leaves zero. */
  predicate SlotHasPrefix(slot: U256, prefix: U256, bits: nat)
    requires bits <= 256
  {
    bits == 0 || slot / Exp2(256 - bits) == prefix / Exp2(256 - bits)
  }

  /** The first slot of a namespace. */
  function PrefixBase(prefix: U256, bits: nat): int
    requires bits <= 256
  {
    Exp2(256 - bits) * (prefix / Exp2(256 - bits))
  }

  lemma QuotientInterval(n: nat, m: nat, d: nat)
    requires d > 0
    ensures n / d == m / d <==> d * (m / d) <= n < d * (m / d) + d
  {
    var q, r := m / d, n / d;
    assert d * r <= n < d * r + d;
    if d * q <= n < d * q + d {
      if r < q {
        MulStep(d, r, q);
      } else if q < r {
        MulStep(d, q, r);
      }
    }
  }

  lemma MulStep(d: nat, a: int, b: int)
    requires a < b && d > 0
    ensures d * a + d <= d * b
  {
    var k := b - a - 1;
    assert d * b == d * a + d + d * k;
  }

  /** A namespace is an aligned interval of 2^(256 - bits) slots around its prefix. */
  lemma PrefixIsInterval(slot: U256, prefix: U256, bits: nat)
    requires bits <= 256
    ensures SlotHasPrefix(slot, prefix, bits)
            <==> PrefixBase(prefix, bits) <= slot < PrefixBase(prefix, bits) + Exp2(256 - bits)
  {
    if bits == 0 {
      WordWidth();
      assert prefix / Exp2(256) == 0;
    } else {
      QuotientInterval(slot, prefix, Exp2(256 - bits));
    }
  }

  predicate Covers(n: Namespace, a: Address, slot: U256)
  {
    n.contract == a && n.bits <= 256 && SlotHasPrefix(slot, n.prefix, n.bits)
  }

  predicate InNamespace(namespaces: seq<Namespace>, a: Address, slot: U256)
  {
    exists i :: 0 <= i < |namespaces| && Covers(namespaces[i], a, slot)
  }

  predicate Writable(policy: ExecutionPolicy, a: Address, slot: U256)
  {
    exists i :: 0 <= i < |policy.namespaces| && policy.namespaces[i].writable && Covers(policy.namespaces[i], a, slot)
  }

  // ----- Calls -----

  function Selector(input: Bytes): Option<Bytes>
  {
    if |input| >= 4 then Some(input[..4]) else None
  }

  function CallerRule(policy: ExecutionPolicy, caller: Address): Address
  {
    if caller in policy.activeMembers then ACTIVE_MEMBER else caller
  }

  predicate RuleMatches(rule: CallRule, caller: Address, target: Address, kind: CallKind, selector: Bytes)
  {
    rule.caller == caller && rule.target == target && kind in rule.kinds && selector in rule.selectors
  }

  predicate AllowsCall(policy: ExecutionPolicy, caller: Address, target: Address, kind: CallKind,
                       selector: Option<Bytes>)
  {
    if !policy.certified then true
    else if target in policy.precompiles && caller in policy.codeHashes then !kind.DelegateCall?
    else
      selector.Some?
      && exists i :: 0 <= i < |policy.callRules|
                     && RuleMatches(policy.callRules[i], CallerRule(policy, caller), target, kind, selector.value)
  }

  /** The first argument rule for an entry point. */
  function FindRule(rules: seq<ArgumentRule>, target: Address, selector: Bytes): Option<ArgumentRule>
  {
    if rules == [] then None
    else if rules[0].target == target && rules[0].selector == selector then Some(rules[0])
    else FindRule(rules[1..], target, selector)
  }

  /** One argument word: present, left-padded with zeros, naming an active member. */
  function WordError(policy: ExecutionPolicy, input: Bytes, index: byte): Option<Violation>
  {
    var start := 4 + 32 * index;
    if start + 32 > |input| then Some(BadArgument(index))
    else
      var word := input[start..start + 32];
      if word[..12] != Zeros(12) then Some(BadArgument(index))
      else if FromBE(word[12..]) !in policy.activeMembers then Some(BadArgument(index))
      else None
  }

  function ArgumentError(policy: ExecutionPolicy, input: Bytes, words: seq<byte>): Option<Violation>
  {
    if words == [] then None
    else if WordError(policy, input, words[0]).Some? then WordError(policy, input, words[0])
    else ArgumentError(policy, input, words[1..])
  }

  function ValidateArguments(policy: ExecutionPolicy, target: Address, selector: Option<Bytes>,
                             input: Bytes): Option<Violation>
  {
    if selector.None? then None
    else
      var rule := FindRule(policy.argumentRules, target, selector.value);
      if rule.None? then None else ArgumentError(policy, input, rule.value.words)
  }

  /** The argument word at an index is the ABI encoding of an active member. */
  ghost predicate NamesMember(policy: ExecutionPolicy, input: Bytes, index: byte)
  {
    var start := 4 + 32 * index;
    start + 32 <= |input| && exists m :: m in policy.activeMembers && input[start..start + 32] == AddressWord(m)
  }

  lemma WordErrorExact(policy: ExecutionPolicy, input: Bytes, index: byte)
    ensures WordError(policy, input, index).None? <==> NamesMember(policy, input, index)
  {
    var start := 4 + 32 * index;
    if start + 32 <= |input| {
      var word := input[start..start + 32];
      Widths();
      if m :| m in policy.activeMembers && word == AddressWord(m) {
        assert word[..12] == Zeros(12) && word[12..] == ToBE(m, 20);
        DecodeEncode(m, 20);
      }
      if word[..12] == Zeros(12) && FromBE(word[12..]) in policy.activeMembers {
        EncodeDecode(word[12..], 20);
        assert Zeros(0) + word[12..] == word[12..];
        assert word == word[..12] + word[12..];
        assert word == AddressWord(FromBE(word[12..]));
      }
    }
  }

  /** The arguments pass exactly when the first matching rule's words all name active members. */
  lemma {:induction false} ArgumentErrorExact(policy: ExecutionPolicy, input: Bytes, words: seq<byte>)
    ensures ArgumentError(policy, input, words).None?
            <==> forall i :: 0 <= i < |words| ==> NamesMember(policy, input, words[i])
  {
    if words != [] {
      WordErrorExact(policy, input, words[0]);
      ArgumentErrorExact(policy, input, words[1..]);
      assert forall i :: 0 < i < |words| ==> words[i] == words[1..][i - 1];
      assert forall i :: 0 <= i < |words[1..]| ==> words[1..][i] == words[i + 1];
    }
  }

  /** The argument words an entry point's first rule speaks of. */
  function RuledWords(policy: ExecutionPolicy, target: Address, input: Bytes): seq<byte>
  {
    var selector := Selector(input);
    var rule := if selector.None? then None else FindRule(policy.argumentRules, target, selector.value);
    if rule.None? then [] else rule.value.words
  }

  /** Every ruled argument word names an active member. */
  ghost predicate NamesMembers(policy: ExecutionPolicy, target: Address, input: Bytes)
  {
    var words := RuledWords(policy, target, input);
    forall i :: 0 <= i < |words| ==> NamesMember(policy, input, words[i])
  }

  lemma ValidateArgumentsExact(policy: ExecutionPolicy, target: Address, input: Bytes)
    ensures ValidateArguments(policy, target, Selector(input), input).None? <==> NamesMembers(policy, target, input)
  {
    ArgumentErrorExact(policy, input, RuledWords(policy, target, input));
  }

  // ----- Membership guards -----

  /** The guarded bit field of a packed slot. */
  function GuardValue(accounts: Accounts, g: Guard): nat
  {
    (SlotValue(accounts, g.contract, g.slot) / Exp2(g.offset)) % Exp2(g.width)
  }

  predicate GuardsHold(policy: ExecutionPolicy, accounts: Accounts)
  {
    policy.membershipChanged ==>
      forall i :: 0 <= i < |policy.guards| ==>
        policy.guards[i].contract in accounts && GuardValue(accounts, policy.guards[i]) in policy.guards[i].allowed
  }

  // ----- State checks -----

  type Snapshot = map<Address, map<U256, U256>>

  function SnapshotOf(accounts: Accounts): Snapshot
  {
    map a | a in accounts :: accounts[a].storage
  }

  function SnapshotValue(pre: Snapshot, a: Address, slot: U256): U256
  {
    if a in pre && slot in pre[a] then pre[a][slot] else 0
  }

  /** Every pinned account is present with its pinned code. */
  predicate PinsHold(p: Platform, codeHashes: map<Address, B256>, accounts: Accounts)
  {
    forall a :: a in codeHashes ==> a in accounts && CodeHash(p, accounts[a]) == codeHashes[a]
  }

  /** No account outside the pinned set has code. */
  predicate NoOtherCode(codeHashes: map<Address, B256>, accounts: Accounts)
  {
    forall a :: a in accounts && accounts[a].code != [] ==> a in codeHashes
  }

  /** The scan for code outside the pinned set, account by account. */
  method ScanOtherCode(codeHashes: map<Address, B256>, accounts: Accounts) returns (ok: bool)
    ensures ok <==> NoOtherCode(codeHashes, accounts)
  {
    var order := KeyOrder(accounts);
    var i := 0;
    while i < |order|
      invariant 0 <= i <= |order|
      invariant forall j :: 0 <= j < i ==> accounts[order[j]].code != [] ==> order[j] in codeHashes
    {
      if accounts[order[i]].code != [] && order[i] !in codeHashes {
        return false;
      }
      i := i + 1;
    }
    ok := true;
  }

  /** Every resident slot lies in some namespace. */
  predicate NamespacesCover(namespaces: seq<Namespace>, accounts: Accounts)
  {
    forall a, k :: a in accounts && k in accounts[a].storage ==> InNamespace(namespaces, a, k)
  }

  /** The scan of the post-state check: resident keys before and after, address by address. */
  predicate DiffsWritable(policy: ExecutionPolicy, pre: Snapshot, post: Accounts)
  {
    forall a :: a in pre.Keys + post.Keys ==>
      forall k :: k in (if a in pre then pre[a].Keys else {}) + (if a in post then post[a].storage.Keys else {}) ==>
        SnapshotValue(pre, a, k) == SlotValue(post, a, k) || Writable(policy, a, k)
  }

  predicate PostStateOk(p: Platform, policy: ExecutionPolicy, pre: Snapshot, post: Accounts)
  {
    policy.certified ==>
      PinsHold(p, policy.codeHashes, post) && DiffsWritable(policy, pre, post) && GuardsHold(policy, post)
  }

  /** The scan of resident keys decides all slots of all addresses. */
  lemma DiffsWritableExact(policy: ExecutionPolicy, pre: Snapshot, post: Accounts)
    ensures DiffsWritable(policy, pre, post)
       <==> forall a: Address, k: U256 :: SnapshotValue(pre, a, k) != SlotValue(post, a, k) ==> Writable(policy, a, k)
  {
    if DiffsWritable(policy, pre, post) {
      forall a: Address, k: U256 | SnapshotValue(pre, a, k) != SlotValue(post, a, k)
        ensures Writable(policy, a, k)
      {
        assert a in pre.Keys + post.Keys;
        assert k in (if a in pre then pre[a].Keys else {}) + (if a in post then post[a].storage.Keys else {});
      }
    }
  }

  /** Accepted terminal states: pinned code intact, and storage differs from the snapshot in writable namespaces
      only. */
  lemma AcceptedPostState(p: Platform, policy: ExecutionPolicy, pre: Snapshot, post: Accounts)
    requires policy.certified
    ensures PostStateOk(p, policy, pre, post)
       <==> && PinsHold(p, policy.codeHashes, post) && GuardsHold(policy, post)
            && forall a: Address, k: U256 :: SnapshotValue(pre, a, k) != SlotValue(post, a, k) ==>
              Writable(policy, a, k)
  {
    DiffsWritableExact(policy, pre, post);
  }
}
