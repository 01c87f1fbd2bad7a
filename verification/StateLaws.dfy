/** Laws of the state map: the prepared-code cache is invisible, commits write what they say, ignore iteration order and
    keep the envelope. */
module StateLaws {
  import opened Bytes
  import opened Ordered
  import opened State

  // ----- The cache is invisible -----

  /** Every cached entry is the decoded, non-empty runtime whose hash is its key. */
  ghost predicate CacheValid(p: Platform, db: Db)
  {
    forall h {:trigger db.preparedCode[h]} :: h in db.preparedCode ==>
      var b := db.preparedCode[h];
      b.original != [] && p.decode(b.original) == Some(b) && p.keccak(b.original) == h
  }

  lemma {:induction false} FillCacheValid(p: Platform, accounts: Accounts, order: seq<Address>, n: nat, h: B256)
    requires ValidPlatform(p) && n <= |order| && forall i :: 0 <= i < n ==> order[i] in accounts
    requires h in FillCache(p, accounts, order, n)
    ensures var b := FillCache(p, accounts, order, n)[h];
            b.original != [] && p.decode(b.original) == Some(b) && p.keccak(b.original) == h
  {
    var record := accounts[order[n - 1]];
    if Prepared(p, record).None? || CodeHash(p, record) != h {
      FillCacheValid(p, accounts, order, n - 1, h);
    }
  }

  lemma InstallKeepsCacheValid(p: Platform, db: Db, frozen: map<Address, B256>)
    requires ValidPlatform(p) && InstallPrepared(p, db, frozen).Some?
    ensures CacheValid(p, InstallPrepared(p, db, frozen).value)
  {
    var order := KeyOrder(frozen);
    var cache := FillCache(p, db.accounts, order, |order|);
    forall h | h in cache
      ensures var b := cache[h]; b.original != [] && p.decode(b.original) == Some(b) && p.keccak(b.original) == h
    {
      FillCacheValid(p, db.accounts, order, |order|, h);
    }
  }

  lemma {:induction false} CommitKeepsPreparedCode(p: Platform, db: Db, changes: Changes, order: seq<Address>)
    requires forall a :: a in order ==> a in changes
    ensures CommitInOrder(p, db, changes, order).preparedCode == db.preparedCode
    ensures CommitInOrder(p, db, changes, order).accessAccounts == db.accessAccounts
    ensures CommitInOrder(p, db, changes, order).accessStorage == db.accessStorage
    ensures CommitInOrder(p, db, changes, order).blockHashes == db.blockHashes
    decreases |order|
  {
    if order != [] {
      CommitKeepsPreparedCode(p, CommitOne(p, db, order[0], changes[order[0]]), changes, order[1..]);
    }
  }

  lemma WriteViolationUncached(p: Platform, db: Db, a: Address, slots: seq<U256>)
    ensures FirstUndeclared(db, a, slots) == FirstUndeclared(ClearPrepared(db), a, slots)
  {
    if slots != [] {
      WriteViolationUncached(p, db, a, slots[1..]);
    }
  }

  /** Forgetting the cache before or after a commit is the same. */
  lemma {:induction false} CommitForgetsCache(p: Platform, db: Db, changes: Changes, order: seq<Address>)
    requires forall a :: a in order ==> a in changes
    ensures ClearPrepared(CommitInOrder(p, db, changes, order)) == CommitInOrder(p, ClearPrepared(db), changes, order)
    decreases |order|
  {
    if order != [] {
      var a, c := order[0], changes[order[0]];
      WriteViolationUncached(p, db, a, p.slotOrder(c.storage));
      assert ClearPrepared(CommitOne(p, db, a, c)) == CommitOne(p, ClearPrepared(db), a, c);
      CommitForgetsCache(p, CommitOne(p, db, a, c), changes, order[1..]);
    }
  }

  /** Account reads through the cache equal uncached reads. */
  lemma ReadsIgnoreCache(p: Platform, db: Db, a: Address)
    requires CacheValid(p, db)
    ensures Basic(p, db, a) == Basic(p, ClearPrepared(db), a)
  {
  }

  /** The trie root through the cache equals the uncached root. */
  lemma RootIgnoresCache(p: Platform, db: Db)
    requires CacheValid(p, db)
    ensures StateRoot(p, db) == StateRoot(p, ClearPrepared(db))
  {
    var plain := ClearPrepared(db);
    forall a | a in db.accounts
      ensures RootEntry(p, db, a) == RootEntry(p, plain, a)
    {
    }
    assert (map a | a in db.accounts && !db.accounts[a].IsEmpty() :: RootEntry(p, db, a))
        == (map a | a in plain.accounts && !plain.accounts[a].IsEmpty() :: RootEntry(p, plain, a));
  }

  /** What the account trie commits to. */
  function TrieEntries(p: Platform, accounts: Accounts): map<Address, TrieAccount>
  {
    map a | a in accounts && !accounts[a].IsEmpty() ::
      TrieAccount(accounts[a].nonce, accounts[a].balance, p.storageRoot(accounts[a].storage), CodeHash(p, accounts[a]))
  }

  ghost function Codes(accounts: Accounts): set<Bytes>
  {
    set a | a in accounts :: accounts[a].code
  }

  /** Two storages of one account, different with the same storage root. */
  ghost predicate StoragesCollide(p: Platform, x: Accounts, y: Accounts, a: Address)
  {
    a in x && a in y && x[a].storage != y[a].storage && p.storageRoot(x[a].storage) == p.storageRoot(y[a].storage)
  }

  /** The account trie, a storage trie or the code hash maps different contents of the two states alike. */
  ghost predicate TriesCollide(p: Platform, x: Accounts, y: Accounts)
  {
    || (TrieEntries(p, x) != TrieEntries(p, y) && p.stateTrie(TrieEntries(p, x)) == p.stateTrie(TrieEntries(p, y)))
    || (exists a :: StoragesCollide(p, x, y, a))
    || Collide(p.keccak, Codes(x), Codes(y))
  }

  lemma UncachedRoot(p: Platform, db: Db)
    requires CacheValid(p, db)
    ensures StateRoot(p, db) == p.stateTrie(TrieEntries(p, db.accounts))
  {
    RootIgnoresCache(p, db);
    var plain := ClearPrepared(db);
    assert (map a | a in plain.accounts && !plain.accounts[a].IsEmpty() :: RootEntry(p, plain, a))
        == TrieEntries(p, db.accounts);
  }

  /** An account as the trie sees it: an empty one is absent. */
  function Present(accounts: Accounts, a: Address): Option<AccountRecord>
  {
    if a in accounts && !accounts[a].IsEmpty() then Some(accounts[a]) else None
  }

  lemma EntriesBindAccount(p: Platform, x: Accounts, y: Accounts, a: Address)
    requires TrieEntries(p, x) == TrieEntries(p, y) && !TriesCollide(p, x, y)
    ensures Present(x, a) == Present(y, a)
  {
    assert Present(x, a).Some? <==> a in TrieEntries(p, x);
    assert Present(y, a).Some? <==> a in TrieEntries(p, y);
    if Present(x, a).Some? {
      var e := TrieEntries(p, x)[a];
      assert e == TrieEntries(p, y)[a];
      assert !StoragesCollide(p, x, y, a);
      assert x[a].code in Codes(x) && y[a].code in Codes(y);
      EqualOrCollide(p.keccak, x[a].code, y[a].code, Codes(x), Codes(y));
    }
  }

  /** States that differ in empty accounts at most have one trie root; equal roots come from such states, unless a trie
      or the code hash collides. */
  lemma TrieRootExact(p: Platform, a: Db, b: Db)
    requires CacheValid(p, a) && CacheValid(p, b)
    ensures (forall k: Address :: Present(a.accounts, k) == Present(b.accounts, k)) ==>
              StateRoot(p, a) == StateRoot(p, b)
    ensures StateRoot(p, a) == StateRoot(p, b) ==>
              || (forall k: Address :: Present(a.accounts, k) == Present(b.accounts, k))
              || TriesCollide(p, a.accounts, b.accounts)
  {
    UncachedRoot(p, a);
    UncachedRoot(p, b);
    if forall k: Address :: Present(a.accounts, k) == Present(b.accounts, k) {
      SameEntries(p, a.accounts, b.accounts);
    } else if StateRoot(p, a) == StateRoot(p, b) && !TriesCollide(p, a.accounts, b.accounts) {
      forall k: Address
        ensures Present(a.accounts, k) == Present(b.accounts, k)
      {
        EntriesBindAccount(p, a.accounts, b.accounts, k);
      }
    }
  }

  lemma SameEntries(p: Platform, x: Accounts, y: Accounts)
    requires forall k: Address :: Present(x, k) == Present(y, k)
    ensures TrieEntries(p, x) == TrieEntries(p, y)
  {
    forall k: Address
      ensures k in TrieEntries(p, x) <==> k in TrieEntries(p, y)
      ensures k in TrieEntries(p, x) ==> TrieEntries(p, x)[k] == TrieEntries(p, y)[k]
    {
      assert Present(x, k) == Present(y, k);
    }
  }

  /** Equal trie roots of states without empty accounts come from equal accounts, unless a trie or the code hash
      collides. */
  lemma TrieRootBinding(p: Platform, a: Db, b: Db)
    requires CacheValid(p, a) && CacheValid(p, b) && NoEmptyAccounts(a.accounts) && NoEmptyAccounts(b.accounts)
    requires StateRoot(p, a) == StateRoot(p, b)
    ensures a.accounts == b.accounts || TriesCollide(p, a.accounts, b.accounts)
  {
    TrieRootExact(p, a, b);
    if !TriesCollide(p, a.accounts, b.accounts) {
      forall k: Address
        ensures Lookup(a.accounts, k) == Lookup(b.accounts, k)
      {
        assert Present(a.accounts, k) == Present(b.accounts, k);
      }
      EqualLookups(a.accounts, b.accounts);
    }
  }

  datatype Op = Install(frozen: map<Address, B256>) | Clear | Apply(changes: Changes)

  /** Installing over a mismatch fails and leaves the state alone. */
  function RunOp(p: Platform, db: Db, op: Op): Db
    requires op.Apply? ==> forall a :: a in p.order(op.changes) ==> a in op.changes
  {
    match op
    case Install(frozen) => if InstallPrepared(p, db, frozen).Some? then InstallPrepared(p, db, frozen).value else db
    case Clear => ClearPrepared(db)
    case Apply(changes) => Commit(p, db, changes)
  }

  ghost function RunOps(p: Platform, db: Db, ops: seq<Op>): Db
    requires ValidPlatform(p)
    decreases |ops|
  {
    if ops == [] then db else RunOps(p, RunOp(p, db, ops[0]), ops[1..])
  }

  /** The same history without any cache. */
  ghost function RunUncached(p: Platform, db: Db, ops: seq<Op>): Db
    requires ValidPlatform(p)
    decreases |ops|
  {
    if ops == [] then db
    else RunUncached(p, if ops[0].Apply? then RunOp(p, db, ops[0]) else db, ops[1..])
  }

  lemma OpKeepsCacheValid(p: Platform, db: Db, op: Op)
    requires ValidPlatform(p) && CacheValid(p, db)
    ensures CacheValid(p, RunOp(p, db, op))
  {
    match op
    case Install(frozen) =>
      if InstallPrepared(p, db, frozen).Some? {
        InstallKeepsCacheValid(p, db, frozen);
      }
    case Clear =>
    case Apply(changes) => CommitKeepsPreparedCode(p, db, changes, p.order(changes));
  }

  lemma OpForgetsCache(p: Platform, db: Db, op: Op)
    requires ValidPlatform(p)
    ensures ClearPrepared(RunOp(p, db, op)) == if op.Apply? then RunOp(p, ClearPrepared(db), op) else ClearPrepared(db)
  {
    match op
    case Install(_) =>
    case Clear =>
    case Apply(changes) => CommitForgetsCache(p, db, changes, p.order(changes));
  }

  /** Over any sequence of installs, clears and commits the cache stays valid and never changes the state beneath it. */
  lemma {:induction false} CacheInvisible(p: Platform, db: Db, ops: seq<Op>)
    requires ValidPlatform(p) && CacheValid(p, db)
    ensures CacheValid(p, RunOps(p, db, ops))
    ensures ClearPrepared(RunOps(p, db, ops)) == RunUncached(p, ClearPrepared(db), ops)
    decreases |ops|
  {
    if ops != [] {
      OpKeepsCacheValid(p, db, ops[0]);
      OpForgetsCache(p, db, ops[0]);
      CacheInvisible(p, RunOp(p, db, ops[0]), ops[1..]);
    }
  }

  /** Reads and the root after any history equal those of the uncached history. */
  lemma HistoryReadsAgree(p: Platform, db: Db, ops: seq<Op>, a: Address, slot: U256)
    requires ValidPlatform(p) && CacheValid(p, db)
    ensures var cached, plain := RunOps(p, db, ops), RunUncached(p, ClearPrepared(db), ops);
            Basic(p, cached, a) == Basic(p, plain, a) && Storage(cached, a, slot) == Storage(plain, a, slot)
            && StateRoot(p, cached) == StateRoot(p, plain)
  {
    CacheInvisible(p, db, ops);
    ReadsIgnoreCache(p, RunOps(p, db, ops), a);
    RootIgnoresCache(p, RunOps(p, db, ops));
  }

  // ----- code_by_hash -----

  /** The code strings whose hashes the lookup relies on. */
  ghost function CodeStrings(db: Db): set<Bytes>
  {
    (set a | a in db.accounts :: db.accounts[a].code) + (set h | h in db.preparedCode :: db.preparedCode[h].original)
  }

  lemma HolderDecodes(p: Platform, db: Db, hash: B256)
    requires CacheValid(p, db) && hash in db.preparedCode && Holders(p, db.accounts, hash) != {}
    ensures Collide(p.keccak, CodeStrings(db), CodeStrings(db))
         || p.decode(db.accounts[Min(Holders(p, db.accounts, hash))].code) == Some(db.preparedCode[hash])
  {
    var a := Min(Holders(p, db.accounts, hash));
    var x, y := db.accounts[a].code, db.preparedCode[hash].original;
    assert x in CodeStrings(db) && y in CodeStrings(db);
    EqualOrCollide(p.keccak, x, y, CodeStrings(db), CodeStrings(db));
  }

  /** Without a collision, lookup by hash through the cache agrees with the uncached lookup exactly when the hash is not
      cached or some live account still holds code with that hash. */
  lemma CodeByHashAgreement(p: Platform, db: Db, hash: B256)
    requires CacheValid(p, db) && !Collide(p.keccak, CodeStrings(db), CodeStrings(db))
    ensures CodeByHash(p, db, hash) == CodeByHash(p, ClearPrepared(db), hash)
       <==> hash !in db.preparedCode || exists a :: Holds(p, db.accounts, hash, a)
  {
    var holders := Holders(p, db.accounts, hash);
    if a :| Holds(p, db.accounts, hash, a) {
      assert a in holders;
    }
    if hash in db.preparedCode {
      if holders == {} {
        assert db.preparedCode[hash].original != [];
      } else {
        HolderDecodes(p, db, hash);
        assert Holds(p, db.accounts, hash, Min(holders));
      }
    }
  }

  /** A history that leaves a stale entry: a frozen contract is installed and then selfdestructs. The cache still serves
      its hash, which the uncached history no longer knows. */
  lemma StaleHashIsServed(p: Platform, a: Address, record: AccountRecord, b: Bytecode, c: Change)
    requires ValidPlatform(p) && record.code == b.original != [] && b.legacy && p.decode(b.original) == Some(b)
    requires c.touched && c.selfdestructed
    ensures var hash := p.keccak(b.original);
            var db := Db(map[a := record], map[], None, None, None, map[], map[]);
            var ops := [Install(map[a := hash]), Apply(map[a := c])];
            && CodeByHash(p, RunOps(p, db, ops), hash) == Some(b)
            && CodeByHash(p, RunUncached(p, db, ops), hash) == Some(EMPTY_BYTECODE)
  {
    var hash, changes := p.keccak(b.original), map[a := c];
    var db := Db(map[a := record], map[], None, None, None, map[], map[]);
    TwoOps(p, db, Install(map[a := hash]), Apply(changes));
    var installed := RunOp(p, db, Install(map[a := hash]));
    InstallCaches(p, db, a, b);
    DestroyedIsGone(p, installed, changes, a);
    DestroyedIsGone(p, db, changes, a);
    CommitKeepsPreparedCode(p, installed, changes, p.order(changes));
    CommitKeepsPreparedCode(p, db, changes, p.order(changes));
  }

  lemma TwoOps(p: Platform, db: Db, first: Op, second: Op)
    requires ValidPlatform(p)
    ensures RunOps(p, db, [first, second]) == RunOp(p, RunOp(p, db, first), second)
    ensures first.Install? && second.Apply? ==> RunUncached(p, db, [first, second]) == RunOp(p, db, second)
  {
    var ops := [first, second];
    assert ops[1..] == [second] && ops[1..][1..] == [];
    var next := RunOp(p, db, first);
    assert RunOps(p, db, ops) == RunOps(p, next, ops[1..]);
    assert RunOps(p, next, ops[1..]) == RunOps(p, RunOp(p, next, second), []);
    if first.Install? && second.Apply? {
      assert RunUncached(p, db, ops) == RunUncached(p, db, ops[1..]);
      assert RunUncached(p, db, ops[1..]) == RunUncached(p, RunOp(p, db, second), []);
    }
  }

  lemma InstallCaches(p: Platform, db: Db, a: Address, b: Bytecode)
    requires a in db.accounts && db.accounts[a].code == b.original != [] && b.legacy && p.decode(b.original) == Some(b)
    ensures var hash := p.keccak(b.original);
            InstallPrepared(p, db, map[a := hash])
              == Some(db.(preparedCode := map[hash := b], preparedAddresses := map[a := hash]))
  {
    var order := KeyOrder(map[a := p.keccak(b.original)]);
    assert a in order;
    OnlyFrozenCached(p, db.accounts, order, |order|, a, b);
  }

  lemma {:induction false} OnlyFrozenCached(p: Platform, accounts: Accounts, order: seq<Address>, n: nat, a: Address,
                                            b: Bytecode)
    requires 0 < n <= |order| && a in accounts && forall i :: 0 <= i < |order| ==> order[i] == a
    requires accounts[a].code == b.original != [] && b.legacy && p.decode(b.original) == Some(b)
    ensures FillCache(p, accounts, order, n) == map[p.keccak(b.original) := b]
  {
    if n == 1 {
      assert FillCache(p, accounts, order, 0) == map[];
    } else {
      OnlyFrozenCached(p, accounts, order, n - 1, a, b);
    }
  }

  lemma DestroyedIsGone(p: Platform, db: Db, changes: Changes, a: Address)
    requires ValidPlatform(p) && changes.Keys == {a} && db.accounts.Keys == {a}
    requires changes[a].touched && changes[a].selfdestructed
    ensures Commit(p, db, changes).accounts == map[]
  {
    var order, after := p.order(changes), Commit(p, db, changes);
    assert Lists(order, changes.Keys);
    forall x: Address
      ensures x !in after.accounts
    {
      CommitPointwise(p, db, changes, order, x);
      assert Lookup(after.accounts, x) == None;
    }
  }

  // ----- Commit order -----

  /** One address's cache binding after its change. */
  function BindingAfter(p: Platform, record: Option<AccountRecord>, bound: Option<B256>, c: Change): Option<B256>
  {
    var after := CommitRecord(p, record, c);
    if !c.touched || (after.Some? && bound == Some(CodeHash(p, after.value))) then bound else None
  }

  lemma CommitOneAt(p: Platform, db: Db, first: Address, c: Change, a: Address)
    ensures var next := CommitOne(p, db, first, c);
            Lookup(next.accounts, a) == if a == first then CommitRecord(p, Lookup(db.accounts, a), c)
                else Lookup(db.accounts, a)
    ensures var next := CommitOne(p, db, first, c);
            Lookup(next.preparedAddresses, a) ==
              if a == first then BindingAfter(p, Lookup(db.accounts, a), Lookup(db.preparedAddresses, a), c)
              else Lookup(db.preparedAddresses, a)
  {
  }

  /** Every account and binding after a commit depends only on its own entry. */
  lemma {:induction false} CommitPointwise(p: Platform, db: Db, changes: Changes, order: seq<Address>, a: Address)
    requires forall x :: x in order ==> x in changes
    requires forall i, j :: 0 <= i < j < |order| ==> order[i] != order[j]
    ensures var after := CommitInOrder(p, db, changes, order);
            Lookup(after.accounts, a) == if a in order then CommitRecord(p, Lookup(db.accounts, a), changes[a])
                else Lookup(db.accounts, a)
    ensures var after := CommitInOrder(p, db, changes, order);
            Lookup(after.preparedAddresses, a) ==
              if a in order then BindingAfter(p, Lookup(db.accounts, a), Lookup(db.preparedAddresses, a), changes[a])
              else Lookup(db.preparedAddresses, a)
    decreases |order|
  {
    if order != [] {
      var first, rest := order[0], order[1..];
      assert a in order <==> a == first || a in rest;
      assert first !in rest;
      CommitOneAt(p, db, first, changes[first], a);
      CommitPointwise(p, CommitOne(p, db, first, changes[first]), changes, rest, a);
    }
  }

  lemma {:induction false} FirstUndeclaredExact(db: Db, a: Address, slots: seq<U256>)
    ensures FirstUndeclared(db, a, slots).Some? <==> exists k :: k in slots && !SlotAllowed(db, a, k)
  {
    if slots != [] {
      FirstUndeclaredExact(db, a, slots[1..]);
      assert forall k :: k in slots <==> k == slots[0] || k in slots[1..];
    }
  }

  /** A touched change stays inside the envelope. */
  ghost predicate WritesAllowed(db: Db, a: Address, c: Change)
  {
    c.touched ==> AccountAllowed(db, a) && forall k :: k in c.storage ==> SlotAllowed(db, a, k)
  }

  lemma WriteViolationExact(p: Platform, db: Db, a: Address, c: Change)
    requires ValidPlatform(p)
    ensures WriteViolation(p, db, a, c).None? <==> WritesAllowed(db, a, c)
  {
    FirstUndeclaredExact(db, a, p.slotOrder(c.storage));
    assert Lists(p.slotOrder(c.storage), c.storage.Keys);
  }

  lemma {:induction false} CommitViolation(p: Platform, db: Db, changes: Changes, order: seq<Address>)
    requires ValidPlatform(p) && forall x :: x in order ==> x in changes
    ensures CommitInOrder(p, db, changes, order).violation.None?
       <==> db.violation.None? && forall a :: a in order ==> WritesAllowed(db, a, changes[a])
    decreases |order|
  {
    if order != [] {
      var first, rest := order[0], order[1..];
      WriteViolationExact(p, db, first, changes[first]);
      CommitViolation(p, CommitOne(p, db, first, changes[first]), changes, rest);
      assert forall a :: a in order <==> a == first || a in rest;
    }
  }

  lemma EqualLookups<K(!new), V>(m: map<K, V>, n: map<K, V>)
    requires forall k :: Lookup(m, k) == Lookup(n, k)
    ensures m == n
  {
    assert forall k :: k in m <==> Lookup(m, k).Some?;
    assert forall k :: k in n <==> Lookup(n, k).Some?;
    assert forall k :: k in m ==> m[k] == Lookup(m, k).value && n[k] == Lookup(n, k).value;
  }

  /** The same platform up to the iteration orders of its hash maps. */
  ghost predicate Reorders(p: Platform, q: Platform)
  {
    ValidPlatform(q) && q.(order := p.order, slotOrder := p.slotOrder) == p
  }

  lemma ReorderedRecord(p: Platform, q: Platform, record: Option<AccountRecord>, bound: Option<B256>, c: Change)
    requires p.keccak == q.keccak
    ensures CommitRecord(p, record, c) == CommitRecord(q, record, c)
    ensures BindingAfter(p, record, bound, c) == BindingAfter(q, record, bound, c)
  {
  }

  /** The iteration orders of the change set and of each account's slots affect neither accounts nor cache bindings nor
      whether a violation is latched. */
  lemma CommitOrderIrrelevant(p: Platform, q: Platform, db: Db, changes: Changes)
    requires ValidPlatform(p) && Reorders(p, q)
    ensures var x, y := Commit(p, db, changes), Commit(q, db, changes);
            x.accounts == y.accounts && x.preparedAddresses == y.preparedAddresses
            && x.violation.Some? == y.violation.Some?
  {
    var x, y := Commit(p, db, changes), Commit(q, db, changes);
    var order, other := p.order(changes), q.order(changes);
    assert Lists(order, changes.Keys) && Lists(other, changes.Keys);
    forall a: Address
      ensures Lookup(x.accounts, a) == Lookup(y.accounts, a)
              && Lookup(x.preparedAddresses, a) == Lookup(y.preparedAddresses, a)
    {
      CommitPointwise(p, db, changes, order, a);
      CommitPointwise(q, db, changes, other, a);
      if a in changes {
        ReorderedRecord(p, q, Lookup(db.accounts, a), Lookup(db.preparedAddresses, a), changes[a]);
      }
    }
    EqualLookups(x.accounts, y.accounts);
    EqualLookups(x.preparedAddresses, y.preparedAddresses);
    CommitViolation(p, db, changes, order);
    CommitViolation(q, db, changes, other);
  }

  /** The violation of the first change outside the envelope. */
  function FirstOffence(p: Platform, db: Db, changes: Changes, order: seq<Address>): Option<DbError>
    requires forall a :: a in order ==> a in changes
  {
    if order == [] then None
    else
      var offence := WriteViolation(p, db, order[0], changes[order[0]]);
      if offence.Some? then offence else FirstOffence(p, db, changes, order[1..])
  }

  lemma {:induction false} SameEnvelopeSameOffence(p: Platform, db: Db, other: Db, changes: Changes,
                                                   order: seq<Address>)
    requires db.accessAccounts == other.accessAccounts && db.accessStorage == other.accessStorage
    requires forall a :: a in order ==> a in changes
    ensures FirstOffence(p, db, changes, order) == FirstOffence(p, other, changes, order)
  {
    if order != [] {
      SameEnvelopeSameSlot(db, other, order[0], p.slotOrder(changes[order[0]].storage));
      SameEnvelopeSameOffence(p, db, other, changes, order[1..]);
    }
  }

  lemma {:induction false} SameEnvelopeSameSlot(db: Db, other: Db, a: Address, slots: seq<U256>)
    requires db.accessStorage == other.accessStorage
    ensures FirstUndeclared(db, a, slots) == FirstUndeclared(other, a, slots)
  {
    if slots != [] {
      SameEnvelopeSameSlot(db, other, a, slots[1..]);
    }
  }

  /** A commit latches the first offence of its order, unless something was latched before. */
  lemma {:induction false} LatchedIsFirstOffence(p: Platform, db: Db, changes: Changes, order: seq<Address>)
    requires forall a :: a in order ==> a in changes
    ensures CommitInOrder(p, db, changes, order).violation
         == if db.violation.Some? then db.violation else FirstOffence(p, db, changes, order)
    decreases |order|
  {
    if order != [] {
      var next := CommitOne(p, db, order[0], changes[order[0]]);
      LatchedIsFirstOffence(p, next, changes, order[1..]);
      SameEnvelopeSameOffence(p, db, next, changes, order[1..]);
    }
  }

  lemma {:induction false} OffenceNamesOffender(db: Db, a: Address, slots: seq<U256>)
    ensures FirstUndeclared(db, a, slots).Some? ==> FirstUndeclared(db, a, slots).value.address == a
  {
    if slots != [] {
      OffenceNamesOffender(db, a, slots[1..]);
    }
  }

  /** With one offender, every order that lists it meets its offence; with none, no order meets any. */
  lemma {:induction false} OnlyOffender(p: Platform, db: Db, changes: Changes, order: seq<Address>, a: Address)
    requires ValidPlatform(p) && a in changes && forall x :: x in order ==> x in changes
    requires forall x :: x in order && !WritesAllowed(db, x, changes[x]) ==> x == a
    ensures FirstOffence(p, db, changes, order) == if a in order then WriteViolation(p, db, a, changes[a]) else None
  {
    if order != [] {
      WriteViolationExact(p, db, order[0], changes[order[0]]);
      WriteViolationExact(p, db, a, changes[a]);
      OnlyOffender(p, db, changes, order[1..], a);
    }
  }

  /** Any order can be rearranged to start with a given entry. */
  lemma StartWith<T(!new)>(order: seq<T>, s: set<T>, a: T) returns (other: seq<T>)
    requires Lists(order, s) && a in s
    ensures Lists(other, s) && other[0] == a
  {
    var i :| 0 <= i < |order| && order[i] == a;
    other := order[i := order[0]][0 := a];
    forall x
      ensures x in other <==> x in s
    {
      if x in s {
        var j :| 0 <= j < |order| && order[j] == x;
        assert other[if j == 0 then i else if j == i then 0 else j] == x;
      }
    }
  }

  /** Whatever order the change set and each account's slots are iterated in, the same violation is latched. */
  ghost predicate LatchIgnoresOrder(p: Platform, db: Db, changes: Changes)
  {
    forall q, r :: Reorders(p, q) && Reorders(p, r) ==>
      Commit(q, db, changes).violation == Commit(r, db, changes).violation
  }

  /** At most one change leaves the envelope. */
  ghost predicate OneOffender(db: Db, changes: Changes)
  {
    forall a, b | a in changes && b in changes ::
      !WritesAllowed(db, a, changes[a]) && !WritesAllowed(db, b, changes[b]) ==> a == b
  }

  /** The change is to an undeclared account, or writes at most one undeclared slot. */
  ghost predicate OneOffence(db: Db, a: Address, c: Change)
  {
    !AccountAllowed(db, a)
    || forall k, l | k in c.storage && l in c.storage :: !SlotAllowed(db, a, k) && !SlotAllowed(db, a, l) ==> k == l
  }

  /** At most one write leaves the envelope, counting an undeclared account as one. */
  ghost predicate OneViolation(db: Db, changes: Changes)
  {
    OneOffender(db, changes)
    && forall a :: a in changes && !WritesAllowed(db, a, changes[a]) ==> OneOffence(db, a, changes[a])
  }

  lemma {:induction false} OnlyUndeclared(db: Db, a: Address, slots: seq<U256>, k: U256)
    requires !SlotAllowed(db, a, k) && forall l :: l in slots && !SlotAllowed(db, a, l) ==> l == k
    ensures FirstUndeclared(db, a, slots) == if k in slots then Some(UndeclaredStorage(a, k)) else None
  {
    if slots != [] {
      OnlyUndeclared(db, a, slots[1..], k);
    }
  }

  /** One offence is the same in every slot order. */
  lemma OffenceIgnoresOrder(q: Platform, r: Platform, db: Db, a: Address, c: Change)
    requires ValidPlatform(q) && ValidPlatform(r) && !WritesAllowed(db, a, c) && OneOffence(db, a, c)
    ensures WriteViolation(q, db, a, c) == WriteViolation(r, db, a, c)
  {
    if AccountAllowed(db, a) {
      var k :| k in c.storage && !SlotAllowed(db, a, k);
      assert Lists(q.slotOrder(c.storage), c.storage.Keys) && Lists(r.slotOrder(c.storage), c.storage.Keys);
      OnlyUndeclared(db, a, q.slotOrder(c.storage), k);
      OnlyUndeclared(db, a, r.slotOrder(c.storage), k);
    }
  }

  lemma CommitLatches(p: Platform, db: Db, changes: Changes)
    requires ValidPlatform(p)
    ensures Lists(p.order(changes), changes.Keys)
    ensures Commit(p, db, changes).violation
         == if db.violation.Some? then db.violation else FirstOffence(p, db, changes, p.order(changes))
  {
    assert Lists(p.order(changes), changes.Keys);
    LatchedIsFirstOffence(p, db, changes, p.order(changes));
  }

  lemma {:induction false} NoOffence(p: Platform, db: Db, changes: Changes, order: seq<Address>)
    requires ValidPlatform(p) && forall x :: x in order ==> x in changes && WritesAllowed(db, x, changes[x])
    ensures FirstOffence(p, db, changes, order).None?
  {
    if order != [] {
      WriteViolationExact(p, db, order[0], changes[order[0]]);
      NoOffence(p, db, changes, order[1..]);
    }
  }

  lemma OneViolationSuffices(q: Platform, r: Platform, db: Db, changes: Changes)
    requires ValidPlatform(q) && ValidPlatform(r) && (db.violation.Some? || OneViolation(db, changes))
    ensures Commit(q, db, changes).violation == Commit(r, db, changes).violation
  {
    CommitLatches(q, db, changes);
    CommitLatches(r, db, changes);
    if db.violation.None? {
      if a :| a in changes && !WritesAllowed(db, a, changes[a]) {
        OnlyOffender(q, db, changes, q.order(changes), a);
        OnlyOffender(r, db, changes, r.order(changes), a);
        OffenceIgnoresOrder(q, r, db, a, changes[a]);
      } else {
        NoOffence(q, db, changes, q.order(changes));
        NoOffence(r, db, changes, r.order(changes));
      }
    }
  }

  /** The platform whose change sets start with one address, and whose storage maps start with one slot. */
  ghost function Starting(p: Platform, changes: Changes, order: seq<Address>, storage: map<U256, U256>,
                          slots: seq<U256>): Platform
  {
    p.(order := (c: Changes) => if c == changes then order else p.order(c),
       slotOrder := (s: map<U256, U256>) => if s == storage then slots else p.slotOrder(s))
  }

  lemma StartingReorders(p: Platform, changes: Changes, order: seq<Address>, storage: map<U256, U256>, slots: seq<U256>)
    requires ValidPlatform(p) && Lists(order, changes.Keys) && Lists(slots, storage.Keys)
    ensures Reorders(p, Starting(p, changes, order, storage, slots))
  {
    var q := Starting(p, changes, order, storage, slots);
    forall c {:trigger q.order(c)}
      ensures Lists(q.order(c), c.Keys)
    {
      assert Lists(p.order(c), c.Keys);
    }
    forall s {:trigger q.slotOrder(s)}
      ensures Lists(q.slotOrder(s), s.Keys)
    {
      assert Lists(p.slotOrder(s), s.Keys);
    }
  }

  /** A platform that meets a given change first, and in it a given slot. */
  lemma MeetsFirst(p: Platform, db: Db, changes: Changes, a: Address, slots: seq<U256>) returns (q: Platform)
    requires ValidPlatform(p) && db.violation.None? && a in changes && !WritesAllowed(db, a, changes[a])
    requires Lists(slots, changes[a].storage.Keys)
    ensures Reorders(p, q) && Commit(q, db, changes).violation.Some?
    ensures Commit(q, db, changes).violation
         == if AccountAllowed(db, a) then FirstUndeclared(db, a, slots) else Some(UndeclaredAccount(a))
  {
    assert Lists(p.order(changes), changes.Keys);
    var order := StartWith(p.order(changes), changes.Keys, a);
    q := Starting(p, changes, order, changes[a].storage, slots);
    StartingReorders(p, changes, order, changes[a].storage, slots);
    CommitLatches(q, db, changes);
    WriteViolationExact(q, db, a, changes[a]);
    assert q.order(changes) == order && q.slotOrder(changes[a].storage) == slots;
  }

  lemma TwoOffendersDisagree(p: Platform, db: Db, changes: Changes, a: Address, b: Address)
    requires ValidPlatform(p) && db.violation.None? && a in changes && b in changes && a != b
    requires !WritesAllowed(db, a, changes[a]) && !WritesAllowed(db, b, changes[b])
    ensures !LatchIgnoresOrder(p, db, changes)
  {
    var s, t := p.slotOrder(changes[a].storage), p.slotOrder(changes[b].storage);
    assert Lists(s, changes[a].storage.Keys) && Lists(t, changes[b].storage.Keys);
    var q := MeetsFirst(p, db, changes, a, s);
    var r := MeetsFirst(p, db, changes, b, t);
    OffenceNamesOffender(db, a, s);
    OffenceNamesOffender(db, b, t);
    assert Commit(q, db, changes).violation != Commit(r, db, changes).violation;
  }

  lemma TwoSlotsDisagree(p: Platform, db: Db, changes: Changes, a: Address, k: U256, l: U256)
    requires ValidPlatform(p) && db.violation.None? && a in changes && changes[a].touched && AccountAllowed(db, a)
    requires k in changes[a].storage && l in changes[a].storage && k != l
    requires !SlotAllowed(db, a, k) && !SlotAllowed(db, a, l)
    ensures !LatchIgnoresOrder(p, db, changes)
  {
    var keys := changes[a].storage.Keys;
    assert Lists(p.slotOrder(changes[a].storage), keys);
    var s := StartWith(p.slotOrder(changes[a].storage), keys, k);
    var t := StartWith(p.slotOrder(changes[a].storage), keys, l);
    var q := MeetsFirst(p, db, changes, a, s);
    var r := MeetsFirst(p, db, changes, a, t);
    assert Commit(q, db, changes).violation != Commit(r, db, changes).violation;
  }

  /** Which violation is latched is independent of all iteration orders exactly when one was latched before, or at most
      one change leaves the envelope and that change is to an undeclared account or writes only one undeclared slot. */
  lemma LatchedErrorOrder(p: Platform, db: Db, changes: Changes)
    requires ValidPlatform(p)
    ensures LatchIgnoresOrder(p, db, changes) <==> db.violation.Some? || OneViolation(db, changes)
  {
    if db.violation.Some? || OneViolation(db, changes) {
      forall q, r | Reorders(p, q) && Reorders(p, r)
        ensures Commit(q, db, changes).violation == Commit(r, db, changes).violation
      {
        OneViolationSuffices(q, r, db, changes);
      }
    } else if !OneOffender(db, changes) {
      var a, b :| a in changes && b in changes && !WritesAllowed(db, a, changes[a])
                  && !WritesAllowed(db, b, changes[b]) && a != b;
      TwoOffendersDisagree(p, db, changes, a, b);
    } else {
      var a :| a in changes && !WritesAllowed(db, a, changes[a]) && !OneOffence(db, a, changes[a]);
      var k, l :| k in changes[a].storage && l in changes[a].storage && k != l
                  && !SlotAllowed(db, a, k) && !SlotAllowed(db, a, l);
      TwoSlotsDisagree(p, db, changes, a, k, l);
    }
  }

  /** Two undeclared slots of one declared account: two slot orders latch different violations. */
  lemma LatchedSlotDependsOnOrder(q: Platform, r: Platform, c: Change)
    requires ValidPlatform(q) && ValidPlatform(r) && c.touched && c.storage.Keys == {7, 8}
    requires q.slotOrder(c.storage) == [7, 8] && r.slotOrder(c.storage) == [8, 7]
    ensures var db := Db(map[], map[], Some({1}), Some(map[1 := {}]), None, map[], map[]);
            && Commit(q, db, map[1 := c]).violation == Some(UndeclaredStorage(1, 7))
            && Commit(r, db, map[1 := c]).violation == Some(UndeclaredStorage(1, 8))
  {
    var db := Db(map[], map[], Some({1}), Some(map[1 := {}]), None, map[], map[]);
    var changes: Changes := map[1 := c];
    CommitLatches(q, db, changes);
    CommitLatches(r, db, changes);
    assert WriteViolation(q, db, 1, c) == Some(UndeclaredStorage(1, 7));
    assert WriteViolation(r, db, 1, c) == Some(UndeclaredStorage(1, 8));
    assert q.order(changes) == [1] && r.order(changes) == [1] by {
      OnlyKey(q.order(changes), 1);
      OnlyKey(r.order(changes), 1);
    }
  }

  lemma OnlyKey(order: seq<Address>, a: Address)
    requires Lists(order, {a})
    ensures order == [a]
  {
    assert a in order;
    var last := |order| - 1;
    assert order[0] in order && order[last] in order;
    assert order[0] == order[last];
  }

  /** Two undeclared accounts: the two orders latch different violations. */
  lemma LatchedErrorDependsOnOrder(p: Platform, c: Change)
    requires c.touched
    ensures var db := Db(map[], map[], Some({}), None, None, map[], map[]);
            var changes := map[1 := c, 2 := c];
            CommitInOrder(p, db, changes, [1, 2]).violation == Some(UndeclaredAccount(1))
            && CommitInOrder(p, db, changes, [2, 1]).violation == Some(UndeclaredAccount(2))
  {
    var db := Db(map[], map[], Some({}), None, None, map[], map[]);
    var changes: Changes := map[1 := c, 2 := c];
    LatchedIsFirstOffence(p, db, changes, [1, 2]);
    LatchedIsFirstOffence(p, db, changes, [2, 1]);
  }

  /** What one slot holds after its account's change. */
  function WrittenSlot(c: Change, before: U256, k: U256): U256
  {
    if k in c.storage then c.storage[k] else if c.created then 0 else before
  }

  lemma MergedSlot(base: map<U256, U256>, written: map<U256, U256>, k: U256)
    ensures var merged := MergeStorage(base, written);
            (if k in merged then merged[k] else 0)
              == if k in written then written[k] else if k in base then base[k] else 0
  {
    var merged := MergeStorage(base, written);
    if k in written {
      assert k in merged <==> written[k] != 0;
    } else {
      assert k in merged <==> k in base;
    }
  }

  lemma RecordReadsBack(p: Platform, record: Option<AccountRecord>, c: Change, k: U256)
    requires c.touched && !c.selfdestructed
    ensures var before := if record.Some? && k in record.value.storage then record.value.storage[k] else 0;
            var after := CommitRecord(p, record, c);
            (if after.Some? && k in after.value.storage then after.value.storage[k] else 0) == WrittenSlot(c, before, k)
  {
    var base := if record.Some? then record.value else NO_ACCOUNT;
    var kept := if c.created then map[] else base.storage;
    var merged := Merged(p, base, c);
    MergedSlot(kept, c.storage, k);
    assert merged.storage == MergeStorage(kept, c.storage);
    if merged.IsEmpty() {
      assert k !in merged.storage;
    }
  }

  /** Reading after a commit: written slots hold the written values, others keep theirs unless the account was created
      anew, balance and nonce are the committed ones, and destroyed accounts are gone. */
  lemma CommitReadsBack(p: Platform, db: Db, changes: Changes, a: Address, k: U256)
    requires ValidPlatform(p) && a in changes && changes[a].touched
    ensures var after, c := Commit(p, db, changes).accounts, changes[a];
            && (c.selfdestructed ==> a !in after)
            && (!c.selfdestructed ==> SlotValue(after, a, k) == WrittenSlot(c, SlotValue(db.accounts, a, k), k))
            && (a in after ==> after[a].nonce == c.info.nonce && after[a].balance == c.info.balance)
            && (a !in after && !c.selfdestructed ==> c.info.nonce == 0 && c.info.balance == 0)
  {
    var order, after := p.order(changes), Commit(p, db, changes).accounts;
    assert Lists(order, changes.Keys);
    CommitPointwise(p, db, changes, order, a);
    assert Lookup(after, a) == CommitRecord(p, Lookup(db.accounts, a), changes[a]);
    if !changes[a].selfdestructed {
      RecordReadsBack(p, Lookup(db.accounts, a), changes[a], k);
    }
  }

  /** The committed info is that of deployed code: some bytes REVM decodes, with their own hash. */
  ghost predicate CarriesCode(p: Platform, info: AccountInfo)
  {
    && info.code.Some? && info.code.value.original != []
    && p.decode(info.code.value.original) == info.code && info.codeHash == p.keccak(info.code.value.original)
  }

  /** The committed info names no code at all. */
  predicate CarriesNoCode(p: Platform, info: AccountInfo)
  {
    (info.code.None? || info.code.value.original == []) && info.codeHash == p.keccak([])
  }

  /** The committed info names code by its hash only. */
  predicate KeepsCode(p: Platform, info: AccountInfo)
  {
    (info.code.None? || info.code.value.original == []) && info.codeHash != p.keccak([])
  }

  /** Hash and code a reader sees at an address; an absent account reads as empty code. */
  function CodeSeen(p: Platform, db: Db, a: Address): (B256, Option<Bytecode>)
  {
    var read := Basic(p, db, a);
    if read.Ok? && read.value.Some? then (read.value.value.codeHash, read.value.value.code)
    else (p.keccak([]), p.decode([]))
  }

  lemma UncachedBasic(p: Platform, db: Db, a: Address)
    requires CacheValid(p, db) && AccountAllowed(db, a) && a in db.accounts
    ensures var r := db.accounts[a];
            Basic(p, db, a) == Ok(Some(AccountInfo(r.balance, r.nonce, p.keccak(r.code), p.decode(r.code))))
  {
    ReadsIgnoreCache(p, db, a);
  }

  lemma CommitBasic(p: Platform, db: Db, changes: Changes, a: Address) returns (record: Option<AccountRecord>)
    requires ValidPlatform(p) && CacheValid(p, db) && AccountAllowed(db, a) && a in changes
    ensures record == CommitRecord(p, Lookup(db.accounts, a), changes[a])
    ensures Lookup(Commit(p, db, changes).accounts, a) == record
    ensures Basic(p, Commit(p, db, changes), a)
         == Ok(if record.None? then None
               else Some(AccountInfo(record.value.balance, record.value.nonce, p.keccak(record.value.code),
                                     p.decode(record.value.code))))
  {
    var order, after := p.order(changes), Commit(p, db, changes);
    assert Lists(order, changes.Keys);
    CommitPointwise(p, db, changes, order, a);
    CommitKeepsPreparedCode(p, db, changes, order);
    record := CommitRecord(p, Lookup(db.accounts, a), changes[a]);
    if record.Some? {
      UncachedBasic(p, after, a);
    }
  }

  /** Reading an account after a commit, through the reader and any valid cache: a deployed contract reads back exactly
      as committed; without code it reads as an account without code; and where only a hash was committed the code is
      the one read before. A destroyed account is gone. */
  lemma CommitReadsBackInfo(p: Platform, db: Db, changes: Changes, a: Address)
    requires ValidPlatform(p) && CacheValid(p, db) && AccountAllowed(db, a) && a in changes && changes[a].touched
    ensures var after, c := Commit(p, db, changes), changes[a];
            var read := Basic(p, after, a);
            && read.Ok? && (c.selfdestructed ==> read.value.None?)
            && (read.value.Some? ==>
                  read.value.value.balance == c.info.balance && read.value.value.nonce == c.info.nonce)
            && (!c.selfdestructed && CarriesCode(p, c.info) ==> read.value == Some(c.info))
            && (!c.selfdestructed && CarriesNoCode(p, c.info) ==> CodeSeen(p, after, a) == (p.keccak([]), p.decode([])))
            && (!c.selfdestructed && KeepsCode(p, c.info) ==> CodeSeen(p, after, a) == CodeSeen(p, db, a))
  {
    var c := changes[a];
    var record := CommitBasic(p, db, changes, a);
    if a in db.accounts {
      UncachedBasic(p, db, a);
    }
  }

  /** Reading a slot after a commit, through the reader. */
  lemma CommitReadsBackSlot(p: Platform, db: Db, changes: Changes, a: Address, k: U256)
    requires ValidPlatform(p) && a in changes && changes[a].touched && !changes[a].selfdestructed
    ensures Storage(Commit(p, db, changes), a, k)
         == if SlotAllowed(db, a, k) then Ok(WrittenSlot(changes[a], SlotValue(db.accounts, a, k), k))
            else Err(UndeclaredStorage(a, k))
  {
    CommitReadsBack(p, db, changes, a, k);
    CommitKeepsPreparedCode(p, db, changes, p.order(changes));
  }

  /** The readers refuse exactly what the envelope does not declare, and an untouched account reads as before. */
  lemma UntouchedReadsSame(p: Platform, db: Db, changes: Changes, a: Address, k: U256)
    requires ValidPlatform(p) && CacheValid(p, db) && (a in changes ==> !changes[a].touched)
    ensures var after := Commit(p, db, changes);
            && Basic(p, after, a) == Basic(p, db, a) && Storage(after, a, k) == Storage(db, a, k)
            && (Basic(p, db, a).Err? <==> !AccountAllowed(db, a))
            && (Storage(db, a, k).Err? <==> !SlotAllowed(db, a, k))
  {
    var order, after := p.order(changes), Commit(p, db, changes);
    assert Lists(order, changes.Keys);
    CommitPointwise(p, db, changes, order, a);
    CommitKeepsPreparedCode(p, db, changes, order);
    assert Lookup(after.accounts, a) == Lookup(db.accounts, a);
    if AccountAllowed(db, a) && a in db.accounts {
      UncachedBasic(p, db, a);
      UncachedBasic(p, after, a);
    }
  }

  // ----- The envelope -----

  /** Resident state lies inside the declared envelope, with no zero slot. */
  ghost predicate Enclosed(db: Db)
  {
    forall a {:trigger db.accounts[a]} :: a in db.accounts ==>
      AccountAllowed(db, a) && !db.accounts[a].HasZeroSlot()
      && forall k :: k in db.accounts[a].storage ==> SlotAllowed(db, a, k)
  }

  ghost predicate NoEmptyAccounts(accounts: Accounts)
  {
    forall a {:trigger accounts[a]} :: a in accounts ==> !accounts[a].IsEmpty()
  }

  /** Resident state lies inside the declared envelope, with no empty account and no zero slot. */
  ghost predicate Contained(db: Db)
  {
    Enclosed(db) && NoEmptyAccounts(db.accounts)
  }

  lemma CommitRecordEnclosed(p: Platform, db: Db, a: Address, c: Change)
    requires Enclosed(db) && WritesAllowed(db, a, c)
    ensures var r := CommitRecord(p, Lookup(db.accounts, a), c);
            r.Some? ==> AccountAllowed(db, a) && !r.value.HasZeroSlot()
                        && forall k :: k in r.value.storage ==> SlotAllowed(db, a, k)
  {
    var r := CommitRecord(p, Lookup(db.accounts, a), c);
    if r.Some? && c.touched {
      forall k | k in r.value.storage
        ensures SlotAllowed(db, a, k) && r.value.storage[k] != 0
      {
        assert k in c.storage || k in db.accounts[a].storage;
      }
    }
  }

  /** A commit that latches nothing keeps the state enclosed. */
  lemma CommitKeepsEnclosed(p: Platform, db: Db, changes: Changes)
    requires ValidPlatform(p) && Enclosed(db) && Commit(p, db, changes).violation.None?
    ensures Enclosed(Commit(p, db, changes))
  {
    var order := p.order(changes);
    assert Lists(order, changes.Keys);
    var after := Commit(p, db, changes);
    CommitViolation(p, db, changes, order);
    CommitKeepsPreparedCode(p, db, changes, order);
    forall a | a in after.accounts
      ensures AccountAllowed(after, a) && !after.accounts[a].HasZeroSlot()
      ensures forall k :: k in after.accounts[a].storage ==> SlotAllowed(after, a, k)
    {
      CommitPointwise(p, db, changes, order, a);
      assert Lookup(after.accounts, a) == Some(after.accounts[a]);
      if a in order {
        CommitRecordEnclosed(p, db, a, changes[a]);
      }
    }
  }

  /** No commit leaves an empty account behind. */
  lemma CommitKeepsNonEmpty(p: Platform, db: Db, changes: Changes)
    requires ValidPlatform(p) && NoEmptyAccounts(db.accounts)
    ensures NoEmptyAccounts(Commit(p, db, changes).accounts)
  {
    var order := p.order(changes);
    assert Lists(order, changes.Keys);
    var after := Commit(p, db, changes);
    forall a | a in after.accounts
      ensures !after.accounts[a].IsEmpty()
    {
      CommitPointwise(p, db, changes, order, a);
      assert Lookup(after.accounts, a) == Some(after.accounts[a]);
    }
  }

  /** A commit that latches nothing keeps the state contained. */
  lemma CommitKeepsContained(p: Platform, db: Db, changes: Changes)
    requires ValidPlatform(p) && Contained(db) && Commit(p, db, changes).violation.None?
    ensures Contained(Commit(p, db, changes))
  {
    CommitKeepsEnclosed(p, db, changes);
    CommitKeepsNonEmpty(p, db, changes);
  }

  ghost function CommitAll(p: Platform, db: Db, commits: seq<Changes>): Db
    requires ValidPlatform(p)
    decreases |commits|
  {
    if commits == [] then db else CommitAll(p, Commit(p, db, commits[0]), commits[1..])
  }

  lemma {:induction false} LatchStays(p: Platform, db: Db, commits: seq<Changes>)
    requires ValidPlatform(p) && db.violation.Some?
    ensures CommitAll(p, db, commits).violation.Some?
    decreases |commits|
  {
    if commits != [] {
      CommitViolation(p, db, commits[0], p.order(commits[0]));
      LatchStays(p, Commit(p, db, commits[0]), commits[1..]);
    }
  }

  /** After any number of commits, an unlatched state is still contained in the envelope. */
  lemma {:induction false} CommitsKeepContained(p: Platform, db: Db, commits: seq<Changes>)
    requires ValidPlatform(p) && Contained(db) && CommitAll(p, db, commits).violation.None?
    ensures Contained(CommitAll(p, db, commits))
    decreases |commits|
  {
    if commits != [] {
      var next := Commit(p, db, commits[0]);
      if next.violation.Some? {
        LatchStays(p, next, commits[1..]);
      }
      CommitKeepsContained(p, db, commits[0]);
      CommitsKeepContained(p, next, commits[1..]);
    }
  }
}
