/** A room whose policy and opening state the v5 constructor accepts, and a deposit after which it refuses: the policy
    binds a token whose balance slots lie in no declared namespace. */
module RefusedCredit {
  import opened Bytes
  import opened State
  import opened Policy
  import opened Compact
  import opened FromV5
  import opened Inbox
  import opened OpeningWrites

  const REGISTRY: Address := 1
  const QUEUE: Address := 2
  const TOKEN: Address := 3
  const ASSET: Address := 7
  const CODE: Bytes := [0]

  function PolicyWith(hash: B256): PolicyV5
  {
    PolicyV5(1, 1, 1, 1, 1, false, false, [CodePin(REGISTRY, hash), CodePin(QUEUE, hash), CodePin(TOKEN, hash)],
             [CallSpec(ACTIVE_MEMBER, REGISTRY, [[0, 0, 0, 0]], [0])],
             [Namespace(REGISTRY, 0, 0, true), Namespace(QUEUE, 0, 0, true)], [],
             Some(Registry(REGISTRY, 0, 1, 2, 3)), Some(Exit(QUEUE, 9, 0, 1, [ExitAsset(ASSET, 1, TOKEN, 0)])))
  }

  function Listing(emptyRoot: B256, slot: U256): seq<AccountWitness>
  {
    [AccountWitness(REGISTRY, true, 1, 0, CODE, emptyRoot, [], []),
     AccountWitness(QUEUE, true, 1, 0, CODE, emptyRoot, [], []),
     AccountWitness(TOKEN, true, 1, 0, CODE, emptyRoot, [], [SlotWitness(slot, 0, [])])]
  }

  function Room(slot: U256): Db
  {
    var contract := AccountRecord(1, 0, CODE, map[]);
    Db(map[REGISTRY := contract, QUEUE := contract, TOKEN := contract], map[], Some({REGISTRY, QUEUE, TOKEN}),
       Some(map[REGISTRY := {}, QUEUE := {}, TOKEN := {slot}]), None, map[], map[])
  }

  lemma Pins(hash: B256)
    ensures var code := PolicyWith(hash).code;
            PinMap(code, |code|) == map[REGISTRY := hash, QUEUE := hash, TOKEN := hash]
  {
    var code := PolicyWith(hash).code;
    assert PinMap(code, 1) == map[REGISTRY := hash];
    assert PinMap(code, 2) == map[REGISTRY := hash, QUEUE := hash];
  }

  lemma EverySlotWritable(v: PolicyV5, i: nat, slot: U256)
    requires i < |v.storage| && v.storage[i].writable && v.storage[i].bits == 0
    ensures WritableSlot(v.storage, v.storage[i].contract, slot)
  {
    assert Covers(v.storage[i], v.storage[i].contract, slot);
  }

  lemma RegistryIsOk(hash: B256)
    ensures var v := PolicyWith(hash); RegistryOk(v, PinMap(v.code, |v.code|))
  {
    var v := PolicyWith(hash);
    Pins(hash);
    forall s: U256
      ensures WritableSlot(v.storage, REGISTRY, s)
    {
      EverySlotWritable(v, 0, s);
    }
    var slots: set<U256> := {0, 1, 2, 3};
    assert |slots| == 4;
  }

  lemma ExitIsOk(hash: B256)
    ensures var v := PolicyWith(hash); ExitOk(v, PinMap(v.code, |v.code|), REGISTRY)
  {
    var v := PolicyWith(hash);
    Pins(hash);
    EverySlotWritable(v, 1, 0);
    EverySlotWritable(v, 1, 1);
  }

  lemma ShapeIsOk(hash: B256, members: set<Address>, usizeMax: nat)
    requires hash != Zeros(32) && members != {} && usizeMax > 0
    ensures ShapeOk(PolicyWith(hash), members, usizeMax)
  {
    Pins(hash);
    RegistryIsOk(hash);
    ExitIsOk(hash);
  }

  lemma WitnessIsWellFormed(emptyRoot: B256, slot: U256)
    ensures var listed := Listing(emptyRoot, slot); WellFormed(emptyRoot, listed, |listed|)
  {
    var listed := Listing(emptyRoot, slot);
    assert CodeBytes(listed, 0) == 0 && CodeBytes(listed, 1) == 1 && CodeBytes(listed, 2) == 2;
    assert SlotCount(listed, 0) == 0 && SlotCount(listed, 1) == 0 && SlotCount(listed, 2) == 0;
  }

  lemma AccountIsRepresented(emptyRoot: B256, slot: U256, i: nat)
    requires i < 3
    ensures AccountRepresented(Room(slot).accounts, Room(slot).accessStorage.value, Listing(emptyRoot, slot)[i])
  {
    var storage := Listing(emptyRoot, slot)[i].storage;
    assert ResidentSlots(storage) == {};
    if i == 2 {
      assert storage[0].slot == slot;
      assert SlotSet(storage) == {slot};
    } else {
      assert SlotSet(storage) == {};
    }
  }

  lemma WitnessOpens(emptyRoot: B256, slot: U256)
    ensures OpenedAs(Listing(emptyRoot, slot), Room(slot))
  {
    var listed := Listing(emptyRoot, slot);
    assert AddressSet(listed, 3) == {listed[0].address, listed[1].address, listed[2].address};
    forall i | 0 <= i < 3
      ensures AccountRepresented(Room(slot).accounts, Room(slot).accessStorage.value, listed[i])
    {
      AccountIsRepresented(emptyRoot, slot, i);
    }
  }

  lemma StateIsOk(p: Platform, slot: U256)
    ensures StateOk(p, PolicyWith(p.keccak(CODE)), Room(slot).accounts)
  {
    Pins(p.keccak(CODE));
  }

  lemma TokenIsUndeclared(hash: B256, slot: U256)
    ensures !InNamespace(PolicyWith(hash).storage, TOKEN, slot)
  {
  }

  /** The bound token's balance slot of the beneficiary. */
  function CreditedSlot(p: Platform, beneficiary: Address): U256
  {
    MappingSlot(p, beneficiary, 0)
  }

  lemma DepositGoesToToken(p: Platform, beneficiary: Address)
    ensures var d := Deposit(1, beneficiary, ASSET, 1, false);
            DestinationOf(p, PolicyWith(p.keccak(CODE)), [], d) == Slot(TOKEN, CreditedSlot(p, beneficiary))
    ensures var d := Deposit(1, beneficiary, ASSET, 1, false);
            NetOf(d, []) == Some(1)
  {
    var v := PolicyWith(p.keccak(CODE));
    assert FindToken(v.exit.value.assets, ASSET) == Some(ExitAsset(ASSET, 1, TOKEN, 0));
  }

  lemma DepositIsPlaced(p: Platform, beneficiary: Address)
    ensures var d := Deposit(1, beneficiary, ASSET, 1, false);
            Written(p, PolicyWith(p.keccak(CODE)), None, [], [d], Room(CreditedSlot(p, beneficiary))).Some?
  {
    var v, d := PolicyWith(p.keccak(CODE)), Deposit(1, beneficiary, ASSET, 1, false);
    var db := Room(CreditedSlot(p, beneficiary));
    DepositGoesToToken(p, beneficiary);
    assert CreditAll(p, v, [], db, [d], 0) == Some(db);
    assert CreditAll(p, v, [], db, [d], 1) == CreditDeposit(p, v, [], db, d);
  }

  /** The policy is well shaped, the witness opens a state the constructor accepts, the deposit's slot is in the
      envelope and the credit is made, but the constructor refuses the credited state. */
  lemma AcceptedRoomRefusedAfterCredit(p: Platform, emptyRoot: B256, members: set<Address>, usizeMax: nat,
                                       beneficiary: Address)
    requires p.keccak(CODE) != Zeros(32) && members != {} && usizeMax > 0
    ensures var v, slot := PolicyWith(p.keccak(CODE)), CreditedSlot(p, beneficiary);
            var listed, d := Listing(emptyRoot, slot), Deposit(1, beneficiary, ASSET, 1, false);
            && ShapeOk(v, members, usizeMax)
            && WellFormed(emptyRoot, listed, |listed|) && OpenedAs(listed, Room(slot))
            && StateOk(p, v, Room(slot).accounts)
            && Written(p, v, None, [], [d], Room(slot)).Some?
            && !StateOk(p, v, Written(p, v, None, [], [d], Room(slot)).value.accounts)
  {
    var v, slot := PolicyWith(p.keccak(CODE)), CreditedSlot(p, beneficiary);
    var d := Deposit(1, beneficiary, ASSET, 1, false);
    ShapeIsOk(p.keccak(CODE), members, usizeMax);
    WitnessIsWellFormed(emptyRoot, slot);
    WitnessOpens(emptyRoot, slot);
    StateIsOk(p, slot);
    DepositIsPlaced(p, beneficiary);
    DepositGoesToToken(p, beneficiary);
    TokenIsUndeclared(p.keccak(CODE), slot);
    assert !CreditsDeclared(p, v, [], [d]) by {
      assert [d][0] == d;
    }
    WrittenStateOk(p, v, None, [], [d], Room(slot));
  }
}
