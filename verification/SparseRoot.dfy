/** The flat sparse room commitment: storage trees under account leaves under one account tree. */
module SparseRoot {
  import opened Bytes
  import opened Ordered
  import opened State
  import opened StateLaws
  import opened Compact
  import opened MerkleTree

  /** The four domain strings. */
  datatype Tags = Tags(storageLeaf: Bytes, storageTree: Bytes, accountLeaf: Bytes, accountTree: Bytes)

  // ----- Storage -----

  function AllKeys(storage: map<U256, U256>): set<int>
  {
    set k | k in storage :: k as int
  }

  function LiveKeys(storage: map<U256, U256>): set<int>
  {
    set k | k in storage && storage[k] != 0 :: k as int
  }

  /** The keys of the non-zero slots, in the iteration order of the storage map. */
  function LiveSlots(storage: map<U256, U256>): (r: seq<U256>)
    ensures forall i :: 0 <= i < |r| ==> r[i] in storage && storage[r[i]] != 0
  {
    var r := Select(Sorted(AllKeys(storage)), LiveKeys(storage));
    assert forall i :: 0 <= i < |r| ==> r[i] in Elements(r);
    r
  }

  function SlotBytes(h: Hash, tags: Tags, slot: U256, value: U256): Bytes
  {
    Concat([h(tags.storageLeaf), U256Word(slot), U256Word(value)])
  }

  function SlotLeaves(h: Hash, tags: Tags, storage: map<U256, U256>): (r: seq<B256>)
    ensures |r| == |LiveSlots(storage)|
  {
    var live := LiveSlots(storage);
    seq<B256>(|live|, i requires 0 <= i < |live| => h(SlotBytes(h, tags, live[i], storage[live[i]])))
  }

  function StorageRoot(h: Hash, tags: Tags, storage: map<U256, U256>): B256
  {
    TreeRoot(h, tags.storageTree, SlotLeaves(h, tags, storage))
  }

  ghost function StoragePreimages(h: Hash, tags: Tags, storage: map<U256, U256>): set<Bytes>
  {
    TreePreimages(h, tags.storageTree, SlotLeaves(h, tags, storage)) + set k | k in storage ::
      SlotBytes(h, tags, k, storage[k])
  }

  lemma SlotBytesInjective(h: Hash, tags: Tags, k: U256, v: U256, k': U256, v': U256)
    requires SlotBytes(h, tags, k, v) == SlotBytes(h, tags, k', v')
    ensures k == k' && v == v'
  {
    var x, y := [h(tags.storageLeaf), U256Word(k), U256Word(v)], [h(tags.storageLeaf), U256Word(k'), U256Word(v')];
    ConcatInjective(x, y);
    assert x[1] == y[1] && x[2] == y[2];
    U256WordInjective(k, k');
    U256WordInjective(v, v');
  }

  lemma LeavesBindSlots(h: Hash, tags: Tags, a: map<U256, U256>, b: map<U256, U256>, p: set<Bytes>, q: set<Bytes>)
    requires SlotLeaves(h, tags, a) == SlotLeaves(h, tags, b) && !Collide(h, p, q)
    requires StoragePreimages(h, tags, a) <= p && StoragePreimages(h, tags, b) <= q
    ensures NonZero(a) == NonZero(b)
  {
    var x, y := LiveSlots(a), LiveSlots(b);
    forall i | 0 <= i < |x|
      ensures x[i] == y[i] && a[x[i]] == b[y[i]]
    {
      assert SlotLeaves(h, tags, a)[i] == SlotLeaves(h, tags, b)[i];
      assert SlotBytes(h, tags, x[i], a[x[i]]) in StoragePreimages(h, tags, a);
      assert SlotBytes(h, tags, y[i], b[y[i]]) in StoragePreimages(h, tags, b);
      EqualOrCollide(h, SlotBytes(h, tags, x[i], a[x[i]]), SlotBytes(h, tags, y[i], b[y[i]]), p, q);
      SlotBytesInjective(h, tags, x[i], a[x[i]], y[i], b[y[i]]);
    }
    SameLive(a, b);
  }

  lemma LiveSlotsExact(storage: map<U256, U256>, k: U256)
    ensures k in LiveSlots(storage) <==> k in NonZero(storage)
  {
    assert k in LiveSlots(storage) <==> k in Elements(LiveSlots(storage));
    assert k in LiveKeys(storage) <==> k in NonZero(storage);
  }

  lemma SameLive(a: map<U256, U256>, b: map<U256, U256>)
    requires LiveSlots(a) == LiveSlots(b)
    requires forall i :: 0 <= i < |LiveSlots(a)| ==> a[LiveSlots(a)[i]] == b[LiveSlots(a)[i]]
    ensures NonZero(a) == NonZero(b)
  {
    var x := LiveSlots(a);
    forall k: U256
      ensures Lookup(NonZero(a), k) == Lookup(NonZero(b), k)
    {
      LiveSlotsExact(a, k);
      LiveSlotsExact(b, k);
      if k in x {
        var i :| 0 <= i < |x| && x[i] == k;
      }
    }
    EqualLookups(NonZero(a), NonZero(b));
  }

  /** Equal storage roots: the same non-zero slots, when no hashed strings collide. */
  lemma StorageBinding(h: Hash, tags: Tags, a: map<U256, U256>, b: map<U256, U256>, p: set<Bytes>, q: set<Bytes>)
    requires |LiveSlots(a)| < TWO_64 && |LiveSlots(b)| < TWO_64
    requires StorageRoot(h, tags, a) == StorageRoot(h, tags, b) && !Collide(h, p, q)
    requires StoragePreimages(h, tags, a) <= p && StoragePreimages(h, tags, b) <= q
    ensures NonZero(a) == NonZero(b)
  {
    assert TreePreimages(h, tags.storageTree, SlotLeaves(h, tags, a)) <= StoragePreimages(h, tags, a);
    assert TreePreimages(h, tags.storageTree, SlotLeaves(h, tags, b)) <= StoragePreimages(h, tags, b);
    TreeBinding(h, tags.storageTree, SlotLeaves(h, tags, a), SlotLeaves(h, tags, b), p, q);
    LeavesBindSlots(h, tags, a, b, p, q);
  }

  lemma LiveSlotsCanonical(storage: map<U256, U256>)
    ensures LiveSlots(storage) == LiveSlots(NonZero(storage))
  {
    var visible := NonZero(storage);
    assert LiveKeys(visible) == AllKeys(visible);
    assert LiveKeys(visible) == LiveKeys(storage) by {
      forall k: U256
        ensures k in LiveKeys(visible) <==> k in LiveKeys(storage)
      {
        assert k in LiveKeys(visible) <==> k in visible;
      }
    }
    SelectSorted(AllKeys(storage), LiveKeys(storage));
    SelectSorted(AllKeys(visible), LiveKeys(visible));
  }

  /** The storage root depends on the non-zero slots only. */
  lemma StorageRootCanonical(h: Hash, tags: Tags, storage: map<U256, U256>)
    ensures StorageRoot(h, tags, storage) == StorageRoot(h, tags, NonZero(storage))
  {
    LiveSlotsCanonical(storage);
    assert SlotLeaves(h, tags, storage) == SlotLeaves(h, tags, NonZero(storage));
  }

  // ----- Accounts -----

  function AllAddresses(accounts: Accounts): set<int>
  {
    set a | a in accounts :: a as int
  }

  function LiveAddresses(accounts: Accounts): set<int>
  {
    set a | a in accounts && !accounts[a].IsEmpty() :: a as int
  }

  function LiveAccounts(accounts: Accounts): (r: seq<Address>)
    ensures forall i :: 0 <= i < |r| ==> r[i] in accounts && !accounts[r[i]].IsEmpty()
  {
    var r := Select(Sorted(AllAddresses(accounts)), LiveAddresses(accounts));
    assert forall i :: 0 <= i < |r| ==> r[i] in Elements(r);
    r
  }

  function AccountWords(p: Platform, tags: Tags, a: Address, record: AccountRecord): seq<B256>
  {
    [p.keccak(tags.accountLeaf), AddressWord(a), U64Word(record.nonce), U256Word(record.balance), CodeHash(p, record),
     StorageRoot(p.keccak, tags, record.storage)]
  }

  function AccountBytes(p: Platform, tags: Tags, a: Address, record: AccountRecord): Bytes
  {
    Concat(AccountWords(p, tags, a, record))
  }

  function AccountLeaves(p: Platform, tags: Tags, accounts: Accounts): (r: seq<B256>)
    ensures |r| == |LiveAccounts(accounts)|
  {
    var live := LiveAccounts(accounts);
    seq<B256>(|live|, i requires 0 <= i < |live| => p.keccak(AccountBytes(p, tags, live[i], accounts[live[i]])))
  }

  function SparseStateRoot(p: Platform, tags: Tags, accounts: Accounts): B256
  {
    TreeRoot(p.keccak, tags.accountTree, AccountLeaves(p, tags, accounts))
  }

  ghost function AccountPreimages(p: Platform, tags: Tags, a: Address, record: AccountRecord): set<Bytes>
  {
    {AccountBytes(p, tags, a, record), record.code} + StoragePreimages(p.keccak, tags, record.storage)
  }

  /** Every string hashed for the root. */
  ghost function RootPreimages(p: Platform, tags: Tags, accounts: Accounts): set<Bytes>
  {
    TreePreimages(p.keccak, tags.accountTree, AccountLeaves(p, tags, accounts))
    + set a, x | a in accounts && x in AccountPreimages(p, tags, a, accounts[a]) :: x
  }

  /** The committed content: non-empty accounts with their non-zero slots. */
  function Visible(accounts: Accounts): Accounts
  {
    map a | a in accounts && !accounts[a].IsEmpty() :: accounts[a].(storage := NonZero(accounts[a].storage))
  }

  /** Lengths a 64-bit machine can hold. */
  ghost predicate FitsMemory(accounts: Accounts)
  {
    |LiveAccounts(accounts)| < TWO_64 && forall a :: a in accounts ==> |LiveSlots(accounts[a].storage)| < TWO_64
  }

  lemma AccountBinding(p: Platform, tags: Tags, a: Address, r: AccountRecord, b: Address, s: AccountRecord,
                       x: set<Bytes>, y: set<Bytes>)
    requires AccountBytes(p, tags, a, r) == AccountBytes(p, tags, b, s) && !Collide(p.keccak, x, y)
    requires AccountPreimages(p, tags, a, r) <= x && AccountPreimages(p, tags, b, s) <= y
    requires |LiveSlots(r.storage)| < TWO_64 && |LiveSlots(s.storage)| < TWO_64
    ensures a == b && r.(storage := NonZero(r.storage)) == s.(storage := NonZero(s.storage))
  {
    var v, w := AccountWords(p, tags, a, r), AccountWords(p, tags, b, s);
    ConcatInjective(v, w);
    assert v[1] == w[1] && v[2] == w[2] && v[3] == w[3] && v[4] == w[4] && v[5] == w[5];
    AddressWordInjective(a, b);
    U64WordInjective(r.nonce, s.nonce);
    U256WordInjective(r.balance, s.balance);
    assert r.code in AccountPreimages(p, tags, a, r) && s.code in AccountPreimages(p, tags, b, s);
    EqualOrCollide(p.keccak, r.code, s.code, x, y);
    StorageBinding(p.keccak, tags, r.storage, s.storage, x, y);
  }

  lemma AccountPreimagesIn(p: Platform, tags: Tags, accounts: Accounts, a: Address)
    requires a in accounts
    ensures AccountPreimages(p, tags, a, accounts[a]) <= RootPreimages(p, tags, accounts)
  {
  }

  lemma LeavesBindAccounts(p: Platform, tags: Tags, a: Accounts, b: Accounts, x: set<Bytes>, y: set<Bytes>, i: nat)
    requires AccountLeaves(p, tags, a) == AccountLeaves(p, tags, b) && !Collide(p.keccak, x, y)
    requires x == RootPreimages(p, tags, a) && y == RootPreimages(p, tags, b) && FitsMemory(a) && FitsMemory(b)
    requires i < |LiveAccounts(a)|
    ensures LiveAccounts(a)[i] == LiveAccounts(b)[i]
    ensures Visible(a)[LiveAccounts(a)[i]] == Visible(b)[LiveAccounts(a)[i]]
  {
    var m, n := LiveAccounts(a)[i], LiveAccounts(b)[i];
    assert AccountLeaves(p, tags, a)[i] == AccountLeaves(p, tags, b)[i];
    AccountPreimagesIn(p, tags, a, m);
    AccountPreimagesIn(p, tags, b, n);
    var u, v := AccountBytes(p, tags, m, a[m]), AccountBytes(p, tags, n, b[n]);
    assert u in AccountPreimages(p, tags, m, a[m]) && v in AccountPreimages(p, tags, n, b[n]);
    EqualOrCollide(p.keccak, u, v, x, y);
    AccountBinding(p, tags, m, a[m], n, b[n], x, y);
  }

  /** Equal sparse roots commit to the same non-empty accounts and non-zero slots, unless hashed strings collide. */
  lemma SparseRootBinding(p: Platform, tags: Tags, a: Accounts, b: Accounts)
    requires FitsMemory(a) && FitsMemory(b) && SparseStateRoot(p, tags, a) == SparseStateRoot(p, tags, b)
    ensures Visible(a) == Visible(b) || Collide(p.keccak, RootPreimages(p, tags, a), RootPreimages(p, tags, b))
  {
    var x, y := RootPreimages(p, tags, a), RootPreimages(p, tags, b);
    if !Collide(p.keccak, x, y) {
      TreeBinding(p.keccak, tags.accountTree, AccountLeaves(p, tags, a), AccountLeaves(p, tags, b), x, y);
      forall i | 0 <= i < |LiveAccounts(a)|
        ensures LiveAccounts(a)[i] == LiveAccounts(b)[i]
        ensures Lookup(Visible(a), LiveAccounts(a)[i]) == Lookup(Visible(b), LiveAccounts(a)[i])
      {
        LeavesBindAccounts(p, tags, a, b, x, y, i);
      }
      assert LiveAccounts(a) == LiveAccounts(b);
      SameLiveAccounts(a, b);
    }
  }

  lemma LiveAccountsExact(accounts: Accounts, k: Address)
    ensures k in LiveAccounts(accounts) <==> k in Visible(accounts)
  {
    assert k in LiveAccounts(accounts) <==> k in Elements(LiveAccounts(accounts));
    assert k in LiveAddresses(accounts) <==> k in Visible(accounts);
  }

  lemma SameLiveAccounts(a: Accounts, b: Accounts)
    requires LiveAccounts(a) == LiveAccounts(b)
    requires forall k :: k in LiveAccounts(a) ==> Lookup(Visible(a), k) == Lookup(Visible(b), k)
    ensures Visible(a) == Visible(b)
  {
    forall k: Address
      ensures Lookup(Visible(a), k) == Lookup(Visible(b), k)
    {
      LiveAccountsExact(a, k);
      LiveAccountsExact(b, k);
    }
    EqualLookups(Visible(a), Visible(b));
  }

  lemma LiveAccountsCanonical(accounts: Accounts)
    ensures LiveAccounts(accounts) == Sorted(AllAddresses(Visible(accounts)))
  {
    assert LiveAddresses(accounts) == AllAddresses(Visible(accounts)) by {
      forall a: Address
        ensures a in LiveAddresses(accounts) <==> a in AllAddresses(Visible(accounts))
      {
        assert a in LiveAddresses(accounts) <==> a in Visible(accounts);
      }
    }
    SelectSorted(AllAddresses(accounts), LiveAddresses(accounts));
  }

  lemma AccountBytesCanonical(p: Platform, tags: Tags, a: Address, r: AccountRecord)
    ensures AccountBytes(p, tags, a, r) == AccountBytes(p, tags, a, r.(storage := NonZero(r.storage)))
  {
    StorageRootCanonical(p.keccak, tags, r.storage);
  }

  lemma LeafCanonical(p: Platform, tags: Tags, accounts: Accounts, i: nat)
    requires i < |LiveAccounts(accounts)|
    ensures var a := LiveAccounts(accounts)[i];
            AccountLeaves(p, tags, accounts)[i] == p.keccak(AccountBytes(p, tags, a, Visible(accounts)[a]))
  {
    var a := LiveAccounts(accounts)[i];
    AccountBytesCanonical(p, tags, a, accounts[a]);
  }

  /** States with the same non-empty accounts and non-zero slots have the same sparse root. */
  lemma SparseRootDeterminedByVisible(p: Platform, tags: Tags, a: Accounts, b: Accounts)
    requires Visible(a) == Visible(b)
    ensures SparseStateRoot(p, tags, a) == SparseStateRoot(p, tags, b)
  {
    LiveAccountsCanonical(a);
    LiveAccountsCanonical(b);
    forall i | 0 <= i < |LiveAccounts(a)|
      ensures AccountLeaves(p, tags, a)[i] == AccountLeaves(p, tags, b)[i]
    {
      LeafCanonical(p, tags, a, i);
      LeafCanonical(p, tags, b, i);
    }
    assert AccountLeaves(p, tags, a) == AccountLeaves(p, tags, b);
  }
}
