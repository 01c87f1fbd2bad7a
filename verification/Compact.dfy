/** Authentication of the room-local compact state witness, and the canonical account list. */
module Compact {
  import opened Bytes
  import opened Ordered
  import opened State
  import opened StateLaws

  const MAX_ACCOUNTS: nat := 128
  const MAX_STORAGE_SLOTS: nat := 2048
  const MAX_CODE_BYTES: nat := 2097152

  datatype SlotWitness = SlotWitness(slot: U256, value: U256, proof: seq<Bytes>)

  datatype AccountWitness = AccountWitness(
    address: Address,
    present: bool,
    nonce: U64,
    balance: U256,
    code: Bytes,
    canonicalStorageRoot: B256,
    accountProof: seq<Bytes>,
    storage: seq<SlotWitness>)

  datatype CompactError =
    | TooManyAccounts | AccountsUnsorted | EnvelopeExceeded | SmuggledProof
    | EmptyAccountPresent | ExcludedAccountCarriesState | SlotsUnsorted

  ghost predicate SlotsAscending(storage: seq<SlotWitness>)
  {
    forall i, j :: 0 <= i < j < |storage| ==> storage[i].slot < storage[j].slot
  }

  predicate HasProof(w: AccountWitness)
  {
    w.accountProof != [] || exists i :: 0 <= i < |w.storage| && w.storage[i].proof != []
  }

  /** EIP-161 emptiness, which ignores storage. */
  predicate InfoEmpty(w: AccountWitness)
  {
    w.nonce == 0 && w.balance == 0 && w.code == []
  }

  ghost predicate AccountOk(emptyRoot: B256, w: AccountWitness)
  {
    && !HasProof(w)
    && (if w.present then !InfoEmpty(w) else InfoEmpty(w) && w.storage == [] && w.canonicalStorageRoot == emptyRoot)
    && SlotsAscending(w.storage)
  }

  /** Code bytes of the first n accounts. */
  function CodeBytes(listed: seq<AccountWitness>, n: nat): nat
    requires n <= |listed|
  {
    if n == 0 then 0 else CodeBytes(listed, n - 1) + |listed[n - 1].code|
  }

  /** Slots named by the first n accounts. */
  function SlotCount(listed: seq<AccountWitness>, n: nat): nat
    requires n <= |listed|
  {
    if n == 0 then 0 else SlotCount(listed, n - 1) + |listed[n - 1].storage|
  }

  ghost predicate AddressesAscending(listed: seq<AccountWitness>, n: nat)
    requires n <= |listed|
  {
    forall i, j :: 0 <= i < j < n ==> listed[i].address < listed[j].address
  }

  /** The first n accounts are strictly sorted, within the resource envelope and individually well formed. */
  ghost predicate WellFormed(emptyRoot: B256, listed: seq<AccountWitness>, n: nat)
    requires n <= |listed|
  {
    && n <= MAX_ACCOUNTS
    && AddressesAscending(listed, n)
    && CodeBytes(listed, n) <= MAX_CODE_BYTES && SlotCount(listed, n) <= MAX_STORAGE_SLOTS
    && forall i {:trigger AccountOk(emptyRoot, listed[i])} :: 0 <= i < n ==> AccountOk(emptyRoot, listed[i])
  }

  function SlotSet(storage: seq<SlotWitness>): set<U256>
  {
    set i | 0 <= i < |storage| :: storage[i].slot
  }

  function ResidentSlots(storage: seq<SlotWitness>): set<U256>
  {
    set i | 0 <= i < |storage| && storage[i].value != 0 :: storage[i].slot
  }

  ghost predicate StoresExactly(m: map<U256, U256>, storage: seq<SlotWitness>)
  {
    && m.Keys == ResidentSlots(storage)
    && forall i :: 0 <= i < |storage| && storage[i].slot in m ==> m[storage[i].slot] == storage[i].value
  }

  ghost predicate RecordOf(record: AccountRecord, w: AccountWitness)
  {
    record.nonce == w.nonce && record.balance == w.balance && record.code == w.code
    && StoresExactly(record.storage, w.storage)
  }

  function AddressSet(listed: seq<AccountWitness>, n: nat): set<Address>
    requires n <= |listed|
  {
    set i | 0 <= i < n :: listed[i].address
  }

  ghost predicate AccountRepresented(accounts: Accounts, slots: map<Address, set<U256>>, w: AccountWitness)
  {
    && w.address in slots && slots[w.address] == SlotSet(w.storage)
    && (w.address in accounts <==> w.present)
    && (w.present ==> RecordOf(accounts[w.address], w))
  }

  /** The state holds exactly the present accounts and the envelope names exactly the listed accounts and slots. */
  ghost predicate Represents(accounts: Accounts, allowed: set<Address>, slots: map<Address, set<U256>>,
                             listed: seq<AccountWitness>, n: nat)
    requires n <= |listed|
  {
    && allowed == AddressSet(listed, n) && slots.Keys == allowed && accounts.Keys <= allowed
    && forall i {:trigger AccountRepresented(accounts, slots, listed[i])} :: 0 <= i < n ==>
      AccountRepresented(accounts, slots, listed[i])
  }

  method ReadSlots(storage: seq<SlotWitness>) returns (ok: bool, values: map<U256, U256>)
    ensures ok <==> SlotsAscending(storage)
    ensures ok ==> StoresExactly(values, storage)
  {
    values := map[];
    var i := 0;
    while i < |storage|
      invariant 0 <= i <= |storage|
      invariant SlotsAscending(storage[..i])
      invariant StoresExactly(values, storage[..i])
    {
      var s := storage[i];
      if i > 0 && storage[i - 1].slot >= s.slot {
        return false, values;
      }
      SlotFresh(storage, i);
      StoresOneMore(values, storage[..i], s);
      values := if s.value != 0 then values[s.slot := s.value] else values;
      i := i + 1;
    }
    assert storage[..i] == storage;
    ok := true;
  }

  lemma SlotFresh(storage: seq<SlotWitness>, i: nat)
    requires i < |storage| && SlotsAscending(storage[..i])
    requires i > 0 ==> storage[i - 1].slot < storage[i].slot
    ensures SlotsAscending(storage[..i + 1]) && storage[..i + 1] == storage[..i] + [storage[i]]
    ensures forall j :: 0 <= j < i ==> storage[..i][j].slot < storage[i].slot
  {
    forall j | 0 <= j < i
      ensures storage[..i][j].slot < storage[i].slot
    {
      assert storage[..i][i - 1] == storage[i - 1];
    }
  }

  lemma StoresOneMore(values: map<U256, U256>, front: seq<SlotWitness>, s: SlotWitness)
    requires StoresExactly(values, front) && forall j :: 0 <= j < |front| ==> front[j].slot < s.slot
    ensures StoresExactly(if s.value != 0 then values[s.slot := s.value] else values, front + [s])
  {
    var all := front + [s];
    assert ResidentSlots(all) == ResidentSlots(front) + if s.value != 0 then {s.slot} else {} by {
      forall k | k in ResidentSlots(front) || (s.value != 0 && k == s.slot)
        ensures k in ResidentSlots(all)
      {
        if k in ResidentSlots(front) {
          var j :| 0 <= j < |front| && front[j].value != 0 && front[j].slot == k;
          assert all[j] == front[j];
        } else {
          assert all[|front|] == s;
        }
      }
    }
  }

  lemma {:induction false} SumsMonotone(listed: seq<AccountWitness>, m: nat, n: nat)
    requires m <= n <= |listed|
    ensures CodeBytes(listed, m) <= CodeBytes(listed, n) && SlotCount(listed, m) <= SlotCount(listed, n)
  {
    if m < n {
      SumsMonotone(listed, m, n - 1);
    }
  }

  /** One more listed account extends a represented prefix. */
  lemma RepresentsOneMore(accounts: Accounts, allowed: set<Address>, slots: map<Address, set<U256>>,
                          listed: seq<AccountWitness>, n: nat, record: AccountRecord)
    requires n < |listed| && Represents(accounts, allowed, slots, listed, n)
    requires listed[n].address !in allowed && RecordOf(record, listed[n])
    ensures var w := listed[n];
            Represents(if w.present then accounts[w.address := record] else accounts, allowed + {w.address},
                       slots[w.address := SlotSet(w.storage)], listed, n + 1)
  {
    var w := listed[n];
    forall i | 0 <= i < n + 1
      ensures AccountRepresented(if w.present then accounts[w.address := record]
                                 else accounts, slots[w.address := SlotSet(w.storage)], listed[i])
    {
      if i < n {
        assert AccountRepresented(accounts, slots, listed[i]);
        assert listed[i].address in AddressSet(listed, n);
      }
    }
  }

  /** The checks on one account beyond its slot order. */
  function AccountError(emptyRoot: B256, w: AccountWitness): Option<CompactError>
  {
    if HasProof(w) then Some(SmuggledProof)
    else if w.present && InfoEmpty(w) then Some(EmptyAccountPresent)
    else if !w.present && !(InfoEmpty(w) && w.storage == [] && w.canonicalStorageRoot == emptyRoot)
    then Some(ExcludedAccountCarriesState)
    else None
  }

  /** One account of the witness: its resident slots when it is well formed. */
  method ReadAccount(emptyRoot: B256, w: AccountWitness) returns (r: Result<map<U256, U256>, CompactError>)
    ensures r.Ok? <==> AccountOk(emptyRoot, w)
    ensures r.Ok? ==> StoresExactly(r.value, w.storage)
  {
    var error := AccountError(emptyRoot, w);
    if error.Some? {
      return Err(error.value);
    }
    var ok, values := ReadSlots(w.storage);
    r := if ok then Ok(values) else Err(SlotsUnsorted);
  }

  /** Room-local verification: accepted exactly for well-formed witnesses, and then the state represents the witness. */
  method VerifyRoomLocal(emptyRoot: B256, listed: seq<AccountWitness>) returns (r: Result<Db, CompactError>)
    ensures r.Ok? <==> WellFormed(emptyRoot, listed, |listed|)
    ensures r.Ok? ==> OpenedAs(listed, r.value)
  {
    if |listed| > MAX_ACCOUNTS {
      return Err(TooManyAccounts);
    }
    var accounts: Accounts, allowed: set<Address>, slots: map<Address, set<U256>> := map[], {}, map[];
    var codeBytes, slotCount := 0, 0;
    var i := 0;
    while i < |listed|
      invariant 0 <= i <= |listed|
      invariant WellFormed(emptyRoot, listed, i)
      invariant codeBytes == CodeBytes(listed, i) && slotCount == SlotCount(listed, i)
      invariant Represents(accounts, allowed, slots, listed, i)
    {
      var w := listed[i];
      codeBytes := codeBytes + |w.code|;
      slotCount := slotCount + |w.storage|;
      if i > 0 && listed[i - 1].address >= w.address {
        return Err(AccountsUnsorted);
      }
      if slotCount > MAX_STORAGE_SLOTS || codeBytes > MAX_CODE_BYTES {
        SumsMonotone(listed, i + 1, |listed|);
        return Err(EnvelopeExceeded);
      }
      var read := ReadAccount(emptyRoot, w);
      if read.Err? {
        return Err(read.error);
      }
      var record := AccountRecord(w.nonce, w.balance, w.code, read.value);
      AddressFresh(listed, i);
      RepresentsOneMore(accounts, allowed, slots, listed, i, record);
      accounts := if w.present then accounts[w.address := record] else accounts;
      allowed := allowed + {w.address};
      slots := slots[w.address := SlotSet(w.storage)];
      i := i + 1;
    }
    r := Ok(Db(accounts, map[], Some(allowed), Some(slots), None, map[], map[]));
  }

  lemma AddressFresh(listed: seq<AccountWitness>, n: nat)
    requires n < |listed| && AddressesAscending(listed, n) && (n > 0 ==> listed[n - 1].address < listed[n].address)
    ensures AddressesAscending(listed, n + 1) && listed[n].address !in AddressSet(listed, n)
  {
    forall j | 0 <= j < n
      ensures listed[j].address < listed[n].address
    {
      assert listed[j].address <= listed[n - 1].address;
    }
  }

  /** An accepted witness is contained in its own envelope: no empty account, no zero slot, nothing undeclared. */
  lemma AcceptedIsContained(emptyRoot: B256, listed: seq<AccountWitness>, db: Db)
    requires WellFormed(emptyRoot, listed, |listed|) && OpenedAs(listed, db)
    ensures Contained(db)
  {
    forall a | a in db.accounts
      ensures AccountAllowed(db, a) && !db.accounts[a].IsEmpty() && !db.accounts[a].HasZeroSlot()
      ensures forall k :: k in db.accounts[a].storage ==> SlotAllowed(db, a, k)
    {
      assert a in db.accessAccounts.value;
      var i :| 0 <= i < |listed| && listed[i].address == a;
      assert AccountRepresented(db.accounts, db.accessStorage.value, listed[i]);
      assert AccountOk(emptyRoot, listed[i]);
      forall k | k in db.accounts[a].storage
        ensures SlotAllowed(db, a, k) && db.accounts[a].storage[k] != 0
      {
        assert k in ResidentSlots(listed[i].storage);
        assert k in SlotSet(listed[i].storage);
      }
    }
  }

  // ----- The witness determines the state -----

  /** A state opened from a witness: exactly the listed accounts and envelope, nothing latched, nothing cached. */
  ghost predicate OpenedAs(listed: seq<AccountWitness>, db: Db)
  {
    && db.accessAccounts.Some? && db.accessStorage.Some?
    && Represents(db.accounts, db.accessAccounts.value, db.accessStorage.value, listed, |listed|)
    && db.violation.None? && db.preparedCode == map[] && db.preparedAddresses == map[] && db.blockHashes == map[]
  }

  lemma StoresUnique(m: map<U256, U256>, n: map<U256, U256>, storage: seq<SlotWitness>)
    requires StoresExactly(m, storage) && StoresExactly(n, storage)
    ensures m == n
  {
    forall k | k in m
      ensures k in n && m[k] == n[k]
    {
      assert k in ResidentSlots(storage);
      var i :| 0 <= i < |storage| && storage[i].value != 0 && storage[i].slot == k;
    }
  }

  /** Two states opened from one witness are equal. */
  lemma OpenedUnique(listed: seq<AccountWitness>, x: Db, y: Db)
    requires OpenedAs(listed, x) && OpenedAs(listed, y)
    ensures x == y
  {
    forall a | a in AddressSet(listed, |listed|)
      ensures a in x.accounts <==> a in y.accounts
      ensures a in x.accounts ==> x.accounts[a] == y.accounts[a]
      ensures x.accessStorage.value[a] == y.accessStorage.value[a]
    {
      var i :| 0 <= i < |listed| && listed[i].address == a;
      assert AccountRepresented(x.accounts, x.accessStorage.value, listed[i]);
      assert AccountRepresented(y.accounts, y.accessStorage.value, listed[i]);
      if listed[i].present {
        StoresUnique(x.accounts[a].storage, y.accounts[a].storage, listed[i].storage);
      }
    }
    assert x.accounts.Keys == y.accounts.Keys;
    assert x.accounts == y.accounts;
    assert x.accessStorage.value == y.accessStorage.value;
  }

  /** The state a well-formed witness opens. */
  ghost function Opened(emptyRoot: B256, listed: seq<AccountWitness>): Option<Db>
  {
    if WellFormed(emptyRoot, listed, |listed|) && exists db :: OpenedAs(listed, db)
    then
      var db :| OpenedAs(listed, db);
      Some(db)
    else None
  }

  /** From an accepted witness, any commits that latch nothing leave the state inside the declared envelope. */
  lemma RoomStaysContained(p: Platform, emptyRoot: B256, listed: seq<AccountWitness>, db: Db, commits: seq<Changes>)
    requires ValidPlatform(p) && WellFormed(emptyRoot, listed, |listed|) && OpenedAs(listed, db)
    requires CommitAll(p, db, commits).violation.None?
    ensures Contained(CommitAll(p, db, commits))
  {
    AcceptedIsContained(emptyRoot, listed, db);
    CommitsKeepContained(p, db, commits);
  }

  // ----- The canonical account list -----

  datatype AccountState = AccountState(nonce: U64, balance: U256, code: Bytes, storage: seq<(U256, U256)>)

  /** Collect pairs into a map, dropping zero values; later pairs overwrite earlier ones. */
  function CollectSlots(storage: seq<(U256, U256)>): map<U256, U256>
  {
    if storage == [] then map[]
    else
      var (k, v) := storage[|storage| - 1];
      var rest := CollectSlots(storage[..|storage| - 1]);
      if v == 0 then rest else rest[k := v]
  }

  function FromInput(state: seq<(Address, AccountState)>): Accounts
  {
    if state == [] then map[]
    else
      var (a, s) := state[|state| - 1];
      FromInput(state[..|state| - 1])[a := AccountRecord(s.nonce, s.balance, s.code, CollectSlots(s.storage))]
  }

  function SlotList(storage: map<U256, U256>, keys: seq<U256>): seq<(U256, U256)>
    requires forall i :: 0 <= i < |keys| ==> keys[i] in storage
  {
    seq(|keys|, i requires 0 <= i < |keys| => (keys[i], storage[keys[i]]))
  }

  function SlotKeys(storage: map<U256, U256>): (r: seq<U256>)
    ensures forall i :: 0 <= i < |r| ==> r[i] in storage
    ensures forall k :: k in storage ==> k in r
  {
    var keys := Sorted(set k | k in storage :: k as int);
    assert forall i :: 0 <= i < |keys| ==> keys[i] in Elements(keys);
    assert forall k :: k in storage ==> k in Elements(keys);
    keys
  }

  function ToInputAccount(record: AccountRecord): AccountState
  {
    AccountState(record.nonce, record.balance, record.code, SlotList(record.storage, SlotKeys(record.storage)))
  }

  /** The non-empty accounts in ascending order, zero slots included as stored. */
  function ToInput(accounts: Accounts, order: seq<Address>): seq<(Address, AccountState)>
    requires forall i :: 0 <= i < |order| ==> order[i] in accounts
  {
    if order == [] then []
    else
      var a := order[|order| - 1];
      var rest := ToInput(accounts, order[..|order| - 1]);
      if accounts[a].IsEmpty() then rest else rest + [(a, ToInputAccount(accounts[a]))]
  }

  function ToInputState(accounts: Accounts): seq<(Address, AccountState)>
  {
    ToInput(accounts, KeyOrder(accounts))
  }

  function NonZero(storage: map<U256, U256>): map<U256, U256>
  {
    map k | k in storage && storage[k] != 0 :: storage[k]
  }

  lemma {:induction false} CollectAt(storage: map<U256, U256>, keys: seq<U256>, k: U256)
    requires forall i :: 0 <= i < |keys| ==> keys[i] in storage
    ensures Lookup(CollectSlots(SlotList(storage, keys)), k) == if k in keys
            && storage[k] != 0 then Some(storage[k]) else None
  {
    if keys != [] {
      var front := keys[..|keys| - 1];
      assert SlotList(storage, keys)[..|keys| - 1] == SlotList(storage, front);
      CollectAt(storage, front, k);
      assert k in keys <==> k == keys[|keys| - 1] || k in front;
    }
  }

  lemma SlotsRoundTrip(storage: map<U256, U256>)
    ensures CollectSlots(SlotList(storage, SlotKeys(storage))) == NonZero(storage)
  {
    var keys := SlotKeys(storage);
    forall k: U256
      ensures Lookup(CollectSlots(SlotList(storage, keys)), k) == Lookup(NonZero(storage), k)
    {
      CollectAt(storage, keys, k);
    }
    EqualLookups(CollectSlots(SlotList(storage, keys)), NonZero(storage));
  }

  lemma {:induction false} FromToAt(accounts: Accounts, order: seq<Address>, a: Address)
    requires forall i :: 0 <= i < |order| ==> order[i] in accounts
    ensures Lookup(FromInput(ToInput(accounts, order)), a)
         == if a in order && !accounts[a].IsEmpty() then Some(accounts[a].(storage := NonZero(accounts[a].storage)))
             else None
  {
    if order != [] {
      var last, front := order[|order| - 1], order[..|order| - 1];
      FromToAt(accounts, front, a);
      assert a in order <==> a == last || a in front;
      var rest := ToInput(accounts, front);
      if !accounts[last].IsEmpty() {
        var all := rest + [(last, ToInputAccount(accounts[last]))];
        assert all[..|all| - 1] == rest;
        SlotsRoundTrip(accounts[last].storage);
      }
    }
  }

  ghost predicate Canonical(accounts: Accounts)
  {
    forall a :: a in accounts ==> !accounts[a].IsEmpty() && !accounts[a].HasZeroSlot()
  }

  /** Reading back the canonical list is the identity exactly on states without empty accounts and zero slots. */
  lemma InputRoundTrip(accounts: Accounts)
    ensures FromInput(ToInputState(accounts)) == accounts <==> Canonical(accounts)
  {
    var back := FromInput(ToInputState(accounts));
    forall a: Address
      ensures Lookup(back, a) == if a in accounts && !accounts[a].IsEmpty()
                                 then Some(accounts[a].(storage := NonZero(accounts[a].storage))) else None
    {
      FromToAt(accounts, KeyOrder(accounts), a);
    }
    forall a | a in accounts
      ensures NonZero(accounts[a].storage) == accounts[a].storage <==> !accounts[a].HasZeroSlot()
    {
      NonZeroExact(accounts[a]);
    }
    if Canonical(accounts) {
      EqualLookups(back, accounts);
    }
    if back == accounts {
      forall a | a in accounts
        ensures !accounts[a].IsEmpty() && !accounts[a].HasZeroSlot()
      {
        assert Lookup(back, a) == Some(accounts[a]);
      }
    }
  }

  lemma NonZeroExact(record: AccountRecord)
    ensures NonZero(record.storage) == record.storage <==> !record.HasZeroSlot()
  {
    if k :| k in record.storage && record.storage[k] == 0 {
      assert k !in NonZero(record.storage);
    } else {
      assert forall k :: k in record.storage ==> k in NonZero(record.storage);
    }
  }

  /** The state a contained room hands to the next block reads back unchanged. */
  lemma ContainedRoundTrip(db: Db)
    requires Contained(db)
    ensures FromInput(ToInputState(db.accounts)) == db.accounts
  {
    InputRoundTrip(db.accounts);
  }
}
