/** What a v5 policy allows, read off the policy as it is written. */
module PolicyMeaning {
  import opened Modular
  import opened Bytes
  import opened BitFields
  import opened State
  import opened Policy
  import opened Inspector
  import opened FromV5

  /** The number a call scheme has in a call rule; CALLCODE has none. */
  function WireKind(scheme: Scheme): Option<byte>
  {
    match scheme
    case PlainCall => Some(0)
    case Static => Some(1)
    case Delegate => Some(2)
    case CallCode => None
  }

  /** Call kinds are CALL, STATICCALL and DELEGATECALL, as the constructor demands. */
  ghost predicate KindsKnown(v: PolicyV5)
  {
    forall i :: 0 <= i < |v.calls| ==> forall k :: k in v.calls[i].kinds ==> k <= 2
  }

  lemma AcceptedKindsKnown(v: PolicyV5, members: set<Address>, usizeMax: nat)
    requires ShapeOk(v, members, usizeMax)
    ensures KindsKnown(v)
  {
    forall i | 0 <= i < |v.calls|
      ensures forall k :: k in v.calls[i].kinds ==> k <= 2
    {
      assert CallOk(PinMap(v.code, |v.code|), v.calls[i]);
    }
  }

  /** The rule lists the call: its target, its selector, its scheme, and its caller, a member standing for all. */
  ghost predicate RuleLists(c: CallSpec, members: set<Address>, scheme: Scheme, caller: Address, target: Address,
                            input: Bytes)
  {
    && c.target == target && |input| >= 4 && input[..4] in c.selectors
    && WireKind(scheme).Some? && WireKind(scheme).value in c.kinds
    && c.caller == if caller in members then ACTIVE_MEMBER else caller
  }

  ghost predicate Listed(v: PolicyV5, members: set<Address>, scheme: Scheme, caller: Address, target: Address,
                         input: Bytes)
  {
    exists i :: 0 <= i < |v.calls| && RuleLists(v.calls[i], members, scheme, caller, target, input)
  }

  lemma KindResolved(c: CallSpec, scheme: Scheme)
    requires (forall k :: k in c.kinds ==> k <= 2) && KindOf(scheme).Some?
    ensures KindOf(scheme).value in ToRule(c).kinds <==> WireKind(scheme).value in c.kinds
  {
    var wire := WireKind(scheme).value;
    assert KindFrom(wire) == KindOf(scheme).value;
    if KindOf(scheme).value in ToRule(c).kinds {
      var k :| k in c.kinds && KindFrom(k) == KindOf(scheme).value;
      assert k == wire;
    }
  }

  lemma RuleResolved(c: CallSpec, policy: ExecutionPolicy, scheme: Scheme, caller: Address, target: Address,
                     input: Bytes)
    requires (forall k :: k in c.kinds ==> k <= 2) && KindOf(scheme).Some? && |input| >= 4
    ensures RuleMatches(ToRule(c), CallerRule(policy, caller), target, KindOf(scheme).value, input[..4])
       <==> RuleLists(c, policy.activeMembers, scheme, caller, target, input)
  {
    KindResolved(c, scheme);
  }

  /** The precompile exemption: a pinned contract may reach a precompile by CALL or STATICCALL. */
  predicate Exempt(policy: ExecutionPolicy, caller: Address, target: Address)
  {
    target in policy.precompiles && caller in policy.codeHashes
  }

  lemma AllowListExact(v: PolicyV5, policy: ExecutionPolicy, scheme: Scheme, caller: Address, target: Address,
                       input: Bytes)
    requires policy == Resolved(v, policy.activeMembers, policy.membershipChanged, policy.precompiles)
    requires KindsKnown(v) && KindOf(scheme).Some? && !Exempt(policy, caller, target)
    ensures AllowsCall(policy, caller, target, KindOf(scheme).value, Selector(input))
       <==> Listed(v, policy.activeMembers, scheme, caller, target, input)
  {
    if |input| >= 4 {
      forall i | 0 <= i < |v.calls|
        ensures RuleMatches(policy.callRules[i], CallerRule(policy, caller), target, KindOf(scheme).value, input[..4])
           <==> RuleLists(v.calls[i], policy.activeMembers, scheme, caller, target, input)
      {
        RuleResolved(v.calls[i], policy, scheme, caller, target, input);
      }
    }
  }

  lemma NoArgumentRules(policy: ExecutionPolicy, target: Address, input: Bytes)
    requires policy.argumentRules == []
    ensures NamesMembers(policy, target, input)
  {
  }

  /** A call is inside the envelope exactly when some rule of the policy lists it; to a precompile, a pinned contract
      may make any CALL or STATICCALL; CALLCODE never is. */
  lemma CallAllowedExactly(v: PolicyV5, policy: ExecutionPolicy, scheme: Scheme, caller: Address, target: Address,
                           input: Bytes)
    requires policy == Resolved(v, policy.activeMembers, policy.membershipChanged, policy.precompiles) && KindsKnown(v)
    ensures EventAllowed(policy, CallEvent(scheme, caller, target, input)) <==>
              if Exempt(policy, caller, target) then scheme.PlainCall? || scheme.Static?
              else Listed(v, policy.activeMembers, scheme, caller, target, input)
  {
    NoArgumentRules(policy, target, input);
    if KindOf(scheme).Some? && !Exempt(policy, caller, target) {
      AllowListExact(v, policy, scheme, caller, target, input);
    }
  }

  /** A transaction may enter exactly by a listed plain call, or as a pinned contract to a precompile; never by
      creation. */
  lemma EntryAllowedExactly(v: PolicyV5, policy: ExecutionPolicy, caller: Address, kind: TxKind, input: Bytes)
    requires policy == Resolved(v, policy.activeMembers, policy.membershipChanged, policy.precompiles) && KindsKnown(v)
    ensures EntryAllowed(policy, caller, kind, input) <==>
              kind.CallTx?
              && (Exempt(policy, caller, kind.target)
                  || Listed(v, policy.activeMembers, PlainCall, caller, kind.target, input))
  {
    if kind.CallTx? {
      CallAllowedExactly(v, policy, PlainCall, caller, kind.target, input);
    }
  }

  /** Memory up to the policy's cap, and neither creation nor selfdestruct. */
  lemma OtherEventsExactly(v: PolicyV5, policy: ExecutionPolicy, e: Event)
    requires policy == Resolved(v, policy.activeMembers, policy.membershipChanged, policy.precompiles) && !e.CallEvent?
    ensures EventAllowed(policy, e) <==>
              match e
              case StepEvent(_, _, memory) => memory <= v.maxMemory
              case StepEndEvent(_, memory) => memory <= v.maxMemory
              case _ => false
  {
  }

  /** The first slot of a namespace and how many it has. */
  ghost predicate Holds(n: Namespace, a: Address, k: U256)
  {
    n.contract == a && n.bits <= 256
    && PrefixBase(n.prefix, n.bits) <= k < PrefixBase(n.prefix, n.bits) + Exp2(256 - n.bits)
  }

  /** A slot may be written exactly when a writable namespace of its contract has it in its interval. */
  lemma WritableExactly(v: PolicyV5, policy: ExecutionPolicy, a: Address, k: U256)
    requires policy == Resolved(v, policy.activeMembers, policy.membershipChanged, policy.precompiles)
    ensures Writable(policy, a, k)
            <==> exists i :: 0 <= i < |v.storage| && v.storage[i].writable && Holds(v.storage[i], a, k)
  {
    forall i | 0 <= i < |v.storage|
      ensures Covers(v.storage[i], a, k) <==> Holds(v.storage[i], a, k)
    {
      if v.storage[i].bits <= 256 {
        PrefixIsInterval(k, v.storage[i].prefix, v.storage[i].bits);
      }
    }
  }

  /** An address is pinned exactly when the policy lists it, to the listed hash. */
  lemma PinnedExactly(v: PolicyV5, policy: ExecutionPolicy, a: Address)
    requires policy == Resolved(v, policy.activeMembers, policy.membershipChanged, policy.precompiles)
    requires PinsSorted(v.code, |v.code|)
    ensures a in policy.codeHashes <==> exists i :: 0 <= i < |v.code| && v.code[i].address == a
    ensures forall i :: 0 <= i < |v.code| && v.code[i].address == a ==>
              a in policy.codeHashes && policy.codeHashes[a] == v.code[i].hash
  {
    PinMapKeys(v.code, |v.code|, a);
  }

  /** A guarded value is the bit field of its slot: bit i of the value is bit offset + i of the slot, and no more. */
  lemma GuardValueIsField(accounts: Accounts, g: Guard, i: nat)
    ensures BitOf(GuardValue(accounts, g), i)
            <==> i < g.width && BitOf(SlotValue(accounts, g.contract, g.slot), g.offset + i)
  {
    FieldBit(SlotValue(accounts, g.contract, g.slot), g.offset, g.width, i);
  }

  /** v is the bit field of a slot. */
  ghost predicate IsField(v: nat, slot: U256, offset: nat, width: nat)
  {
    forall i: nat :: BitOf(v, i) <==> i < width && BitOf(slot, offset + i)
  }

  lemma FieldIsGuardValue(accounts: Accounts, g: Guard, v: nat)
    ensures IsField(v, SlotValue(accounts, g.contract, g.slot), g.offset, g.width) <==> v == GuardValue(accounts, g)
  {
    var slot := SlotValue(accounts, g.contract, g.slot);
    forall i: nat
      ensures BitOf(GuardValue(accounts, g), i) <==> i < g.width && BitOf(slot, g.offset + i)
    {
      GuardValueIsField(accounts, g, i);
    }
    if IsField(v, slot, g.offset, g.width) {
      SameBits(v, GuardValue(accounts, g));
    }
  }

  /** When the membership changes, and only then, every guarded contract must be there with a guarded field that holds
      an allowed value. */
  lemma GuardsExactly(policy: ExecutionPolicy, accounts: Accounts)
    ensures !policy.membershipChanged ==> GuardsHold(policy, accounts)
    ensures policy.membershipChanged ==>
              (GuardsHold(policy, accounts) <==> forall g :: g in policy.guards ==> GuardMet(accounts, g))
  {
    forall g | g in policy.guards
      ensures GuardMet(accounts, g) <==> g.contract in accounts && GuardValue(accounts, g) in g.allowed
    {
      GuardMetExact(accounts, g);
    }
  }

  ghost predicate GuardMet(accounts: Accounts, g: Guard)
  {
    g.contract in accounts && exists v ::
      v in g.allowed && IsField(v, SlotValue(accounts, g.contract, g.slot), g.offset, g.width)
  }

  lemma GuardMetExact(accounts: Accounts, g: Guard)
    ensures GuardMet(accounts, g) <==> g.contract in accounts && GuardValue(accounts, g) in g.allowed
  {
    FieldIsGuardValue(accounts, g, GuardValue(accounts, g));
    forall v: nat
      ensures IsField(v, SlotValue(accounts, g.contract, g.slot), g.offset, g.width) <==> v == GuardValue(accounts, g)
    {
      FieldIsGuardValue(accounts, g, v);
    }
  }
}
