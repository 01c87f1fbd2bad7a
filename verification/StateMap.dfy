/** The mutable state map: REVM's database reads, in-place commit and prepared-code installation. */
module StateMaps {
  import opened Bytes
  import opened Ordered
  import opened State

  class StateMap {
    const p: Platform
    var accounts: Accounts
    var blockHashes: map<U64, B256>
    var accessAccounts: Option<set<Address>>
    var accessStorage: Option<map<Address, set<U256>>>
    var violation: Option<DbError>
    var preparedCode: map<B256, Bytecode>
    var preparedAddresses: map<Address, B256>

    constructor (p: Platform, db: Db)
      ensures this.p == p && View() == db
    {
      this.p := p;
      accounts, blockHashes, accessAccounts, accessStorage :=
          db.accounts, db.blockHashes, db.accessAccounts, db.accessStorage;
      violation, preparedCode, preparedAddresses := db.violation, db.preparedCode, db.preparedAddresses;
    }

    function View(): Db
      reads this
    {
      Db(accounts, blockHashes, accessAccounts, accessStorage, violation, preparedCode, preparedAddresses)
    }

    method ReadBasic(a: Address) returns (r: Result<Option<AccountInfo>, DbError>)
      ensures r == Basic(p, View(), a)
    {
      if accessAccounts.Some? && a !in accessAccounts.value {
        return Err(UndeclaredAccount(a));
      }
      if a !in accounts {
        return Ok(None);
      }
      var record := accounts[a];
      if a in preparedAddresses && preparedAddresses[a] in preparedCode {
        var hash := preparedAddresses[a];
        if preparedCode[hash].original == record.code {
          return Ok(Some(AccountInfo(record.balance, record.nonce, hash, Some(preparedCode[hash]))));
        }
      }
      r := Ok(Some(AccountInfo(record.balance, record.nonce, p.keccak(record.code), p.decode(record.code))));
    }

    method ReadStorage(a: Address, slot: U256) returns (r: Result<U256, DbError>)
      ensures r == Storage(View(), a, slot)
    {
      if accessStorage.Some? && !(a in accessStorage.value && slot in accessStorage.value[a]) {
        return Err(UndeclaredStorage(a, slot));
      }
      r := Ok(if a in accounts && slot in accounts[a].storage then accounts[a].storage[slot] else 0);
    }

    /** Scan the accounts in ascending order for code with the hash. */
    method ReadCodeByHash(hash: B256) returns (r: Option<Bytecode>)
      ensures r == CodeByHash(p, View(), hash)
    {
      if hash in preparedCode {
        return Some(preparedCode[hash]);
      }
      ghost var holders := Holders(p, accounts, hash);
      var rest := set a | a in accounts :: a as int;
      while rest != {}
        invariant rest <= set a | a in accounts :: a as int
        invariant holders <= rest
        invariant forall a :: a in accounts && (a as int) !in rest ==> forall b :: b in rest ==> a < b
        decreases |rest|
      {
        var a := Min(rest);
        if accounts[a].code != [] && p.keccak(accounts[a].code) == hash {
          assert a in holders;
          assert Min(holders) == a;
          return p.decode(accounts[a].code);
        }
        assert a !in holders;
        rest := rest - {a};
      }
      assert holders == {};
      r := Some(EMPTY_BYTECODE);
    }

    /** Merge written slots one by one: zero deletes, anything else overwrites. */
    method MergeSlots(base: map<U256, U256>, written: map<U256, U256>) returns (merged: map<U256, U256>)
      ensures merged == MergeStorage(base, written)
    {
      merged := base;
      var rest := written.Keys;
      while rest != {}
        invariant rest <= written.Keys
        invariant forall k :: k in merged <==>
          if k in written && k !in rest then written[k] != 0 else k in base
        invariant forall k :: k in merged ==> merged[k] == if k in written && k !in rest then written[k] else base[k]
        decreases |rest|
      {
        var k :| k in rest;
        if written[k] == 0 {
          merged := merged - {k};
        } else {
          merged := merged[k := written[k]];
        }
        rest := rest - {k};
      }
    }

    method LatchUndeclared(a: Address, slots: seq<U256>)
      modifies this`violation
      ensures violation == if old(violation).Some? then old(violation) else FirstUndeclared(View(), a, slots)
    {
      ghost var before := violation;
      var i := 0;
      while i < |slots|
        invariant 0 <= i <= |slots|
        invariant violation == before || (before.None? && violation.Some?)
        invariant before.None? ==> (if violation.Some? then violation == FirstUndeclared(View(), a, slots)
                                    else FirstUndeclared(View(), a, slots) == FirstUndeclared(View(), a, slots[i..]))
      {
        label step:
        if !SlotAllowed(View(), a, slots[i]) && violation.None? {
          violation := Some(UndeclaredStorage(a, slots[i]));
          UndeclaredIgnoresLatch(old@step(View()), View(), a, slots);
        }
        i := i + 1;
      }
    }

    method LatchWrites(a: Address, c: Change)
      requires c.touched
      modifies this`violation
      ensures violation == if old(violation).Some? then old(violation) else WriteViolation(p, old(View()), a, c)
    {
      ghost var before := View();
      if accessAccounts.Some? && a !in accessAccounts.value {
        if violation.None? {
          violation := Some(UndeclaredAccount(a));
        }
      }
      LatchUndeclared(a, p.slotOrder(c.storage));
      UndeclaredIgnoresLatch(before, View(), a, p.slotOrder(c.storage));
    }

    method MergeChange(record: AccountRecord, c: Change) returns (merged: AccountRecord)
      ensures merged == Merged(p, record, c)
    {
      var storage := MergeSlots(if c.created then map[] else record.storage, c.storage);
      var code := record.code;
      if c.info.code.Some? && c.info.code.value.original != [] {
        code := c.info.code.value.original;
      } else if c.info.codeHash == p.keccak([]) {
        code := [];
      }
      merged := AccountRecord(c.info.nonce, c.info.balance, code, storage);
    }

    /** Apply one entry of the change set. */
    method CommitEntry(a: Address, c: Change)
      modifies this`accounts, this`violation, this`preparedAddresses
      ensures View() == CommitOne(p, old(View()), a, c)
    {
      if !c.touched {
        return;
      }
      LatchWrites(a, c);
      if c.selfdestructed {
        accounts := accounts - {a};
        preparedAddresses := preparedAddresses - {a};
        return;
      }
      var merged := MergeChange(if a in accounts then accounts[a] else NO_ACCOUNT, c);
      if merged.IsEmpty() {
        accounts := accounts - {a};
        preparedAddresses := preparedAddresses - {a};
        return;
      }
      accounts := accounts[a := merged];
      if a in preparedAddresses && p.keccak(merged.code) != preparedAddresses[a] {
        preparedAddresses := preparedAddresses - {a};
      }
      assert a !in preparedAddresses ==> preparedAddresses - {a} == preparedAddresses;
    }

    /** Apply a change set in the hash map's iteration order. */
    method CommitChanges(changes: Changes)
      requires forall a :: a in p.order(changes) ==> a in changes
      modifies this`accounts, this`violation, this`preparedAddresses
      ensures View() == Commit(p, old(View()), changes)
    {
      var order := p.order(changes);
      var i := 0;
      assert order[0..] == order;
      while i < |order|
        invariant 0 <= i <= |order|
        invariant CommitInOrder(p, View(), changes, order[i..]) == Commit(p, old(View()), changes)
      {
        assert order[i..][1..] == order[i + 1..];
        CommitEntry(order[i], changes[order[i]]);
        i := i + 1;
      }
    }

    /** Recheck every frozen hash and analyze legacy code once. */
    method AnalyzeFrozen(frozen: map<Address, B256>, order: seq<Address>) returns (ok: bool, cache: map<B256, Bytecode>)
      requires forall i :: 0 <= i < |order| ==> order[i] in frozen
      ensures ok <==> forall j :: 0 <= j < |order| ==> FrozenMatches(p, accounts, frozen, order[j])
      ensures ok ==> cache == FillCache(p, accounts, order, |order|)
    {
      cache := map[];
      var i := 0;
      while i < |order|
        invariant 0 <= i <= |order|
        invariant forall j :: 0 <= j < i ==> FrozenMatches(p, accounts, frozen, order[j])
        invariant cache == FillCache(p, accounts, order, i)
      {
        var a := order[i];
        if a !in accounts || p.keccak(accounts[a].code) != frozen[a] {
          return false, cache;
        }
        var record := accounts[a];
        if record.code != [] {
          var analyzed := p.decode(record.code);
          if analyzed.Some? && analyzed.value.legacy {
            cache := cache[p.keccak(record.code) := analyzed.value];
          }
        }
        i := i + 1;
      }
      ok := true;
    }

    /** Replace both cache maps, or leave everything alone when a frozen hash does not match. */
    method InstallPreparedRuntimeCode(frozen: map<Address, B256>) returns (ok: bool)
      modifies this`preparedCode, this`preparedAddresses
      ensures ok == InstallPrepared(p, old(View()), frozen).Some?
      ensures View() == if ok then InstallPrepared(p, old(View()), frozen).value else old(View())
    {
      var order := KeyOrder(frozen);
      var cache;
      ok, cache := AnalyzeFrozen(frozen, order);
      InstallableInOrder(p, accounts, frozen);
      if ok {
        preparedCode, preparedAddresses := cache, frozen;
      }
    }

    method ClearPreparedRuntimeCode()
      modifies this`preparedCode, this`preparedAddresses
      ensures View() == ClearPrepared(old(View()))
    {
      preparedCode, preparedAddresses := map[], map[];
    }
  }

  lemma InstallableInOrder(p: Platform, accounts: Accounts, frozen: map<Address, B256>)
    ensures var order := KeyOrder(frozen);
            Installable(p, accounts, frozen) <==>
              forall j :: 0 <= j < |order| ==> FrozenMatches(p, accounts, frozen, order[j])
  {
    var order := KeyOrder(frozen);
    if forall j :: 0 <= j < |order| ==> FrozenMatches(p, accounts, frozen, order[j]) {
      forall a | a in frozen
        ensures FrozenMatches(p, accounts, frozen, a)
      {
        var j :| 0 <= j < |order| && order[j] == a;
      }
    }
  }

  lemma UndeclaredIgnoresLatch(x: Db, y: Db, a: Address, slots: seq<U256>)
    requires x.accessStorage == y.accessStorage
    ensures FirstUndeclared(x, a, slots) == FirstUndeclared(y, a, slots)
  {
    if slots != [] {
      UndeclaredIgnoresLatch(x, y, a, slots[1..]);
    }
  }
}
