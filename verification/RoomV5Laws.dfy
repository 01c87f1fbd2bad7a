/** What an accepted batch of a long-lived room did, read off the batch and the policy as they are written. */
module RoomV5Laws {
  import opened Bytes
  import opened State
  import opened Policy
  import opened Inspector
  import opened Compact
  import opened FromV5
  import opened PolicyMeaning
  import opened Block
  import opened BlockData
  import opened Chain
  import opened RoomV5
  import Rlp
  import BatchData

  // ----- Members -----

  /** Transaction j of block i decodes to one sent by m. */
  predicate Signs(w: World, blocks: seq<ChainBlock>, i: nat, j: nat, m: Address)
  {
    && i < |blocks| && j < |blocks[i].rawTxs|
    && var tx := w.decodeTx(blocks[i].rawTxs[j], blocks[i].env.chainId);
       tx.Ok? && tx.value.caller == m
  }

  /** m sent some transaction of the first n blocks. */
  ghost predicate Sent(w: World, blocks: seq<ChainBlock>, n: nat, m: Address)
  {
    exists i: nat, j: nat :: i < n && Signs(w, blocks, i, j, m)
  }

  lemma BlockSign(w: World, blocks: seq<ChainBlock>, i: nat, m: Address)
    requires i < |blocks|
    ensures m in SendersOf(w, blocks[i]) <==> exists j: nat :: Signs(w, blocks, i, j, m)
  {
    var b := blocks[i];
    if m in SendersOf(w, b) {
      var j :| 0 <= j < |b.rawTxs| && w.decodeTx(b.rawTxs[j], b.env.chainId).Ok?
               && w.decodeTx(b.rawTxs[j], b.env.chainId).value.caller == m;
      assert Signs(w, blocks, i, j, m);
    }
  }

  lemma {:induction false} SendersSent(w: World, blocks: seq<ChainBlock>, n: nat, m: Address)
    requires n <= |blocks|
    ensures m in Senders(w, blocks, n) <==> Sent(w, blocks, n, m)
  {
    if n > 0 {
      SendersSent(w, blocks, n - 1, m);
      BlockSign(w, blocks, n - 1, m);
    }
  }

  lemma OpenedMembers(w: World, room: Room, emptyRoot: B256, input: BatchV5)
    requires OpenV5(w, room, emptyRoot, input).Some?
    ensures room.approvers(input).Some?
    ensures Members(w, input, room.approvers(input).value)
         == Some(OpenV5(w, room, emptyRoot, input).value.policy.activeMembers)
  {
  }

  /** The members of an opened batch: the approvers, and in a validity-only room also exactly the senders of its
      transactions, which all decode. */
  lemma MembersExact(w: World, room: Room, emptyRoot: B256, input: BatchV5, m: Address)
    requires OpenV5(w, room, emptyRoot, input).Some?
    ensures room.approvers(input).Some?
    ensures m in OpenV5(w, room, emptyRoot, input).value.policy.activeMembers <==>
            || m in room.approvers(input).value
            || (input.authorization == 1 && Sent(w, input.blocks, |input.blocks|, m))
    ensures input.authorization == 1 ==> forall i :: 0 <= i < |input.blocks| ==> Decodes(w, input.blocks[i])
  {
    OpenedMembers(w, room, emptyRoot, input);
    SendersSent(w, input.blocks, |input.blocks|, m);
  }

  // ----- Calls -----

  /** The policy as written lets the call happen. */
  ghost predicate Permits(v: PolicyV5, policy: ExecutionPolicy, scheme: Scheme, caller: Address, target: Address,
                          data: Bytes)
  {
    if Exempt(policy, caller, target) then scheme.PlainCall? || scheme.Static?
    else Listed(v, policy.activeMembers, scheme, caller, target, data)
  }

  /** The policy as written lets the event happen: listed calls, memory under the cap, no creation, no selfdestruct. */
  ghost predicate PermitsEvent(v: PolicyV5, policy: ExecutionPolicy, e: Event)
  {
    match e
    case StepEvent(_, _, memory) => memory <= v.maxMemory
    case StepEndEvent(_, memory) => memory <= v.maxMemory
    case CallEvent(scheme, caller, target, data) => Permits(v, policy, scheme, caller, target, data)
    case _ => false
  }

  lemma EventPermitted(v: PolicyV5, policy: ExecutionPolicy, e: Event)
    requires policy == Resolved(v, policy.activeMembers, policy.membershipChanged, policy.precompiles) && KindsKnown(v)
    ensures EventAllowed(policy, e) <==> PermitsEvent(v, policy, e)
  {
    if e.CallEvent? {
      CallAllowedExactly(v, policy, e.scheme, e.caller, e.target, e.input);
    } else {
      OtherEventsExactly(v, policy, e);
    }
  }

  /** Transaction j of the block decodes to a permitted call, and everything its run did was permitted. */
  ghost predicate TxPermitted(w: World, v: PolicyV5, policy: ExecutionPolicy, input: BlockInput, db: Db, j: nat)
    requires ValidPlatform(w.p) && j < |input.rawTxs|
  {
    var tx := w.decodeTx(input.rawTxs[j], input.env.chainId);
    && tx.Ok? && tx.value.kind.CallTx?
    && Permits(v, policy, PlainCall, tx.value.caller, tx.value.kind.target, tx.value.data)
    && var run := w.exec(true, StateBefore(w, policy, true, input, None, db, j), input.env, tx.value);
       run.Ran? && forall k :: 0 <= k < |run.trace| ==> PermitsEvent(v, policy, run.trace[k])
  }

  lemma AllowedIsPermitted(w: World, v: PolicyV5, policy: ExecutionPolicy, input: BlockInput, db: Db, j: nat)
    requires ValidPlatform(w.p) && j < |input.rawTxs| && KindsKnown(v)
    requires policy == Resolved(v, policy.activeMembers, policy.membershipChanged, policy.precompiles)
    ensures TxAllowed(w, policy, true, input, None, db, j) <==> TxPermitted(w, v, policy, input, db, j)
  {
    var tx := w.decodeTx(input.rawTxs[j], input.env.chainId);
    if tx.Ok? {
      EntryAllowedExactly(v, policy, tx.value.caller, tx.value.kind, tx.value.data);
      var run := w.exec(true, StateBefore(w, policy, true, input, None, db, j), input.env, tx.value);
      if run.Ran? {
        forall k | 0 <= k < |run.trace|
          ensures EventAllowed(policy, run.trace[k]) <==> PermitsEvent(v, policy, run.trace[k])
        {
          EventPermitted(v, policy, run.trace[k]);
        }
      }
    }
  }

  /** Every transaction of every block of an accepted batch, its root call and everything its run did, was permitted by
      the policy as it is written. */
  lemma EverythingPermitted(w: World, room: Room, emptyRoot: B256, input: BatchV5, carry: Carry, i: nat, j: nat)
    requires ValidPlatform(w.p) && ExecuteV5(w, Exec(w), room, emptyRoot, input).Some?
    requires StartCarry(w, input, OpenV5(w, room, emptyRoot, input).value.db) == Some(carry)
    requires i < |input.blocks| && j < |input.blocks[i].rawTxs|
    ensures var policy := OpenV5(w, room, emptyRoot, input).value.policy;
            var rules := RulesV5(room, input, policy);
            TxPermitted(w, input.policy, policy,
                        InputFor(rules, input.blocks[i], RootBefore(input.blocks, carry, i)),
                        OpeningState(Exec(w), rules, input.blocks, carry, i), j)
  {
    var policy := OpenV5(w, room, emptyRoot, input).value.policy;
    var rules := RulesV5(room, input, policy);
    var state, db := OpeningParts(w, room, emptyRoot, input);
    AcceptedKindsKnown(input.policy, policy.activeMembers, room.usizeMax);
    EveryTransactionAllowed(w, Exec(w), rules, input.blocks, carry, i, j);
    AllowedIsPermitted(w, input.policy, policy, InputFor(rules, input.blocks[i], RootBefore(input.blocks, carry, i)),
                       OpeningState(Exec(w), rules, input.blocks, carry, i), j);
  }

  // ----- Checks made elsewhere -----

  /** Nothing that is decided elsewhere was skipped: an accepted batch has an authenticated opening root, a proven
      import, the committed policy, and passed the checks at the opening and at the close, within the witness cap. */
  lemma NothingSkipped(w: World, room: Room, emptyRoot: B256, input: BatchV5) returns (state: Db)
    requires ValidPlatform(w.p) && ExecuteV5(w, Exec(w), room, emptyRoot, input).Some?
    ensures OpenedAs(input.listed, state) && RoomRoot(w, state, input.policy.stateCommitment) == Some(input.preRoot)
    ensures room.opens(input, state.accounts) && room.importProven(input) && room.approvers(input).Some?
    ensures room.hashOf(input.policy) == input.policyHash && input.witnessBytes <= 8388608
    ensures var end := ExecuteV5(w, Exec(w), room, emptyRoot, input).value.end;
            room.closes(input, end.db.accounts) && end.root == input.postRoot
  {
    var db;
    state, db := OpeningParts(w, room, emptyRoot, input);
    Opens(w, room, emptyRoot, input, state);
  }

  lemma Opens(w: World, room: Room, emptyRoot: B256, input: BatchV5, state: Db)
    requires OpenV5(w, room, emptyRoot, input).Some? && Opened(emptyRoot, input.listed) == Some(state)
    ensures room.opens(input, state.accounts) && room.importProven(input) && room.approvers(input).Some?
    ensures room.hashOf(input.policy) == input.policyHash && input.witnessBytes <= 8388608
  {
  }

  // ----- Published data -----

  /** Two accepted batches that publish the same data hash have the same blocks and opening root, or their encodings
      collide. */
  lemma PublishedDataBinds(w: World, room: Room, emptyRoot: B256, a: BatchV5, b: BatchV5)
    requires ValidPlatform(w.p) && a.dataHash == b.dataHash
    requires ExecuteV5(w, Exec(w), room, emptyRoot, a).Some? && ExecuteV5(w, Exec(w), room, emptyRoot, b).Some?
    requires |Rlp.Encode(BatchData.BatchItem(a.blocks, a.preRoot))| < TWO_64
    ensures || (a.blocks == b.blocks && a.preRoot == b.preRoot)
            || Clash(w.p.keccak, Rlp.Encode(BatchData.BatchItem(a.blocks, a.preRoot)),
                     Rlp.Encode(BatchData.BatchItem(b.blocks, b.preRoot)))
  {
    var x, y := Rlp.Encode(BatchData.BatchItem(a.blocks, a.preRoot)),
        Rlp.Encode(BatchData.BatchItem(b.blocks, b.preRoot));
    var carry := AcceptedIsChained(w, room, emptyRoot, a);
    if x == y {
      BatchData.BatchDataInjective(a.blocks, a.preRoot, b.blocks, b.preRoot);
    }
  }
}
