/** The room state map: account records, the declared access envelope, commits and the prepared-code cache. */
module State {
  import opened Bytes
  import opened Ordered

  datatype AccountRecord = AccountRecord(nonce: U64, balance: U256, code: Bytes, storage: map<U256, U256>)
  {
    predicate IsEmpty()
    {
      nonce == 0 && balance == 0 && code == [] && storage == map[]
    }

    predicate HasZeroSlot()
    {
      exists k :: k in storage && storage[k] == 0
    }
  }

  type Accounts = map<Address, AccountRecord>

  const NO_ACCOUNT := AccountRecord(0, 0, [], map[])

  /** REVM's analyzed form of runtime bytes. */
  datatype Bytecode = Bytecode(original: Bytes, legacy: bool)

  const EMPTY_BYTECODE := Bytecode([], true)

  datatype AccountInfo = AccountInfo(balance: U256, nonce: U64, codeHash: B256, code: Option<Bytecode>)

  /** One account of a transaction's change set; `storage` holds the present values. */
  datatype Change = Change(touched: bool, selfdestructed: bool, created: bool, info: AccountInfo,
                           storage: map<U256, U256>)

  type Changes = map<Address, Change>

  datatype DbError = UndeclaredAccount(address: Address) | UndeclaredStorage(address: Address, slot: U256)

  datatype TrieAccount = TrieAccount(nonce: U64, balance: U256, storageRoot: B256, codeHash: B256)

  /** Foreign functions: the hash, REVM's decoder, trie construction, and the iteration order of hash maps. */
  datatype Platform = Platform(
    keccak: Hash,
    decode: Bytes -> Option<Bytecode>,
    storageRoot: map<U256, U256> -> B256,
    stateTrie: map<Address, TrieAccount> -> B256,
    order: Changes -> seq<Address>,
    slotOrder: map<U256, U256> -> seq<U256>)

  ghost predicate ValidPlatform(p: Platform)
  {
    && (forall b {:trigger p.decode(b)} :: p.decode(b).Some? ==> p.decode(b).value.original == b)
    && (forall c {:trigger p.order(c)} :: Lists(p.order(c), c.Keys))
    && (forall s {:trigger p.slotOrder(s)} :: Lists(p.slotOrder(s), s.Keys))
  }

  /** `order` names every element of `s` exactly once. */
  ghost predicate Lists<T(!new)>(order: seq<T>, s: set<T>)
  {
    && (forall x :: x in order <==> x in s)
    && (forall i, j :: 0 <= i < j < |order| ==> order[i] != order[j])
  }

  datatype Db = Db(
    accounts: Accounts,
    blockHashes: map<U64, B256>,
    accessAccounts: Option<set<Address>>,
    accessStorage: Option<map<Address, set<U256>>>,
    violation: Option<DbError>,
    preparedCode: map<B256, Bytecode>,
    preparedAddresses: map<Address, B256>)

  function Lookup<K, V>(m: map<K, V>, k: K): Option<V>
  {
    if k in m then Some(m[k]) else None
  }

  /** `KECCAK_EMPTY` is the hash of the empty string, so one expression covers both branches. */
  function CodeHash(p: Platform, a: AccountRecord): B256
  {
    p.keccak(a.code)
  }

  // ----- Reads -----

  predicate AccountAllowed(db: Db, a: Address)
  {
    db.accessAccounts.None? || a in db.accessAccounts.value
  }

  predicate SlotAllowed(db: Db, a: Address, slot: U256)
  {
    db.accessStorage.None? || (a in db.accessStorage.value && slot in db.accessStorage.value[a])
  }

  /** A prepared representation that still matches the account's bytes. */
  function ValidatedPrepared(db: Db, a: Address, record: AccountRecord): Option<(B256, Bytecode)>
  {
    if a in db.preparedAddresses && db.preparedAddresses[a] in db.preparedCode
       && db.preparedCode[db.preparedAddresses[a]].original == record.code
    then Some((db.preparedAddresses[a], db.preparedCode[db.preparedAddresses[a]]))
    else None
  }

  function Info(p: Platform, db: Db, a: Address, record: AccountRecord): AccountInfo
  {
    match ValidatedPrepared(db, a, record)
    case Some((hash, code)) => AccountInfo(record.balance, record.nonce, hash, Some(code))
    case None => AccountInfo(record.balance, record.nonce, CodeHash(p, record), p.decode(record.code))
  }

  function Basic(p: Platform, db: Db, a: Address): Result<Option<AccountInfo>, DbError>
  {
    if !AccountAllowed(db, a) then Err(UndeclaredAccount(a))
    else if a in db.accounts then Ok(Some(Info(p, db, a, db.accounts[a])))
    else Ok(None)
  }

  function SlotValue(accounts: Accounts, a: Address, slot: U256): U256
  {
    if a in accounts && slot in accounts[a].storage then accounts[a].storage[slot] else 0
  }

  function CodeAt(accounts: Accounts, a: Address): Bytes
  {
    if a in accounts then accounts[a].code else []
  }

  function Storage(db: Db, a: Address, slot: U256): Result<U256, DbError>
  {
    if !SlotAllowed(db, a, slot) then Err(UndeclaredStorage(a, slot)) else Ok(SlotValue(db.accounts, a, slot))
  }

  function BlockHash(db: Db, number: U64): B256
  {
    if number in db.blockHashes then db.blockHashes[number] else Zeros(32)
  }

  predicate Holds(p: Platform, accounts: Accounts, hash: B256, a: Address)
  {
    a in accounts && accounts[a].code != [] && CodeHash(p, accounts[a]) == hash
  }

  /** The accounts holding code with a hash. */
  function Holders(p: Platform, accounts: Accounts, hash: B256): set<int>
  {
    set a | a in accounts && Holds(p, accounts, hash, a) :: a as int
  }

  function CodeByHash(p: Platform, db: Db, hash: B256): Option<Bytecode>
  {
    var holders := Holders(p, db.accounts, hash);
    if hash in db.preparedCode then Some(db.preparedCode[hash])
    else if holders == {} then Some(EMPTY_BYTECODE)
    else p.decode(db.accounts[Min(holders)].code)
  }

  // ----- The state root -----

  function RootEntry(p: Platform, db: Db, a: Address): TrieAccount
    requires a in db.accounts
  {
    var record := db.accounts[a];
    var hash := match ValidatedPrepared(db, a, record) case Some((h, _)) => h case None => CodeHash(p, record);
    TrieAccount(record.nonce, record.balance, p.storageRoot(record.storage), hash)
  }

  function StateRoot(p: Platform, db: Db): B256
  {
    p.stateTrie(map a | a in db.accounts && !db.accounts[a].IsEmpty() :: RootEntry(p, db, a))
  }

  // ----- Commit -----

  function MergeStorage(base: map<U256, U256>, written: map<U256, U256>): map<U256, U256>
  {
    map k | k in base.Keys + written.Keys
    && (k in written ==> written[k] != 0) :: if k in written then written[k] else base[k]
  }

  function CommittedCode(p: Platform, code: Bytes, info: AccountInfo): Bytes
  {
    if info.code.Some? && info.code.value.original != [] then info.code.value.original
    else if info.codeHash == p.keccak([]) then []
    else code
  }

  function Merged(p: Platform, record: AccountRecord, c: Change): AccountRecord
  {
    AccountRecord(c.info.nonce, c.info.balance, CommittedCode(p, record.code, c.info),
                  MergeStorage(if c.created then map[] else record.storage, c.storage))
  }

  /** One account after its change: removed when selfdestructed or left empty. */
  function CommitRecord(p: Platform, record: Option<AccountRecord>, c: Change): Option<AccountRecord>
  {
    if !c.touched then record
    else if c.selfdestructed then None
    else
      var merged := Merged(p, if record.Some? then record.value else NO_ACCOUNT, c);
      if merged.IsEmpty() then None else Some(merged)
  }

  function FirstUndeclared(db: Db, a: Address, slots: seq<U256>): Option<DbError>
  {
    if slots == [] then None
    else if !SlotAllowed(db, a, slots[0]) then Some(UndeclaredStorage(a, slots[0]))
    else FirstUndeclared(db, a, slots[1..])
  }

  /** The first write of a change outside the envelope. */
  function WriteViolation(p: Platform, db: Db, a: Address, c: Change): Option<DbError>
  {
    if !c.touched then None
    else if !AccountAllowed(db, a) then Some(UndeclaredAccount(a))
    else FirstUndeclared(db, a, p.slotOrder(c.storage))
  }

  function SetRecord(accounts: Accounts, a: Address, record: Option<AccountRecord>): Accounts
  {
    if record.Some? then accounts[a := record.value] else accounts - {a}
  }

  /** Apply one change: latch a violation, edit the account, drop its cache binding when the code changed. */
  function CommitOne(p: Platform, db: Db, a: Address, c: Change): Db
  {
    if !c.touched then db
    else
      var record := CommitRecord(p, Lookup(db.accounts, a), c);
      var keep := record.Some? && a in db.preparedAddresses && CodeHash(p, record.value) == db.preparedAddresses[a];
      db.(violation := if db.violation.Some? then db.violation else WriteViolation(p, db, a, c),
          accounts := SetRecord(db.accounts, a, record),
          preparedAddresses := if keep then db.preparedAddresses else db.preparedAddresses - {a})
  }

  function CommitInOrder(p: Platform, db: Db, changes: Changes, order: seq<Address>): Db
    requires forall a :: a in order ==> a in changes
    decreases |order|
  {
    if order == [] then db
    else CommitInOrder(p, CommitOne(p, db, order[0], changes[order[0]]), changes, order[1..])
  }

  function Commit(p: Platform, db: Db, changes: Changes): Db
    requires forall a :: a in p.order(changes) ==> a in changes
  {
    CommitInOrder(p, db, changes, p.order(changes))
  }

  // ----- The prepared-code cache -----

  /** The cached form of one frozen account, if its bytes are legacy code. */
  function Prepared(p: Platform, record: AccountRecord): Option<Bytecode>
  {
    if record.code == [] then None
    else match p.decode(record.code)
         case Some(b) => if b.legacy then Some(b) else None
         case None => None
  }

  predicate FrozenMatches(p: Platform, accounts: Accounts, frozen: map<Address, B256>, a: Address)
    requires a in frozen
  {
    a in accounts && CodeHash(p, accounts[a]) == frozen[a]
  }

  /** Fill the cache from the first `n` frozen addresses, later entries overwriting earlier ones. */
  function FillCache(p: Platform, accounts: Accounts, order: seq<Address>, n: nat): map<B256, Bytecode>
    requires n <= |order| && forall i :: 0 <= i < n ==> order[i] in accounts
  {
    if n == 0 then map[]
    else
      var record := accounts[order[n - 1]];
      var rest := FillCache(p, accounts, order, n - 1);
      match Prepared(p, record)
      case Some(b) => rest[CodeHash(p, record) := b]
      case None => rest
  }

  predicate Installable(p: Platform, accounts: Accounts, frozen: map<Address, B256>)
  {
    forall a :: a in frozen ==> FrozenMatches(p, accounts, frozen, a)
  }

  function InstallPrepared(p: Platform, db: Db, frozen: map<Address, B256>): Option<Db>
  {
    if Installable(p, db.accounts, frozen)
    then
      var order := KeyOrder(frozen);
      Some(db.(preparedCode := FillCache(p, db.accounts, order, |order|), preparedAddresses := frozen))
    else None
  }

  /** The keys of an ordered map in iteration order. */
  function KeyOrder<V>(m: map<Address, V>): (r: seq<Address>)
    ensures forall i :: 0 <= i < |r| ==> r[i] in m
    ensures forall a :: a in m ==> a in r
  {
    var keys := set a | a in m :: a as int;
    var r := Sorted(keys);
    assert forall i :: 0 <= i < |r| ==> r[i] in Elements(r);
    assert forall a :: a in m ==> a in Elements(r);
    r
  }

  function ClearPrepared(db: Db): Db
  {
    db.(preparedCode := map[], preparedAddresses := map[])
  }
}
