/** Shape rules of a cold template: runtime code, access set and refresh rules. */
module ColdShapes {
  import opened Bytes
  import opened Ordered
  import opened State
  import opened Compact

  datatype RuntimeCode = RuntimeCode(address: Address, codeHash: B256)
  datatype Access = Access(address: Address, slots: seq<U256>)
  datatype Refresh = Refresh(address: Address, nonce: bool, balance: bool, allStorage: bool, slots: seq<U256>)

  datatype ColdError =
    | AccountCapExceeded | RuntimeUnsorted | ZeroCodeHash | DuplicateAccess | AccessSlotsUnsorted | AccessUnsorted
    | SlotCapExceeded | RuntimeWithoutAccess | RefreshUnsorted | RefreshOutsideAccess | RefreshSlotsUnsorted
    | RefreshSlotOutsideAccess | RuntimeAccountAbsent | RuntimeHashMismatch | UncommittedRuntime
    | AccessAccountAbsent | StorageOutsideAccess

  // ----- What the shapes must satisfy -----

  function RuntimeAddresses(runtime: seq<RuntimeCode>): (r: seq<int>)
    ensures |r| == |runtime|
  {
    seq(|runtime|, i requires 0 <= i < |runtime| => runtime[i].address as int)
  }

  function AccessAddresses(access: seq<Access>): (r: seq<int>)
    ensures |r| == |access|
  {
    seq(|access|, i requires 0 <= i < |access| => access[i].address as int)
  }

  function RefreshAddresses(refresh: seq<Refresh>): (r: seq<int>)
    ensures |r| == |refresh|
  {
    seq(|refresh|, i requires 0 <= i < |refresh| => refresh[i].address as int)
  }

  /** Slots named by the first n access entries. */
  function SlotTotal(access: seq<Access>, n: nat): nat
    requires n <= |access|
  {
    if n == 0 then 0 else SlotTotal(access, n - 1) + |access[n - 1].slots|
  }

  ghost predicate RuntimeOk(runtime: seq<RuntimeCode>)
  {
    Ascending(RuntimeAddresses(runtime)) && forall i :: 0 <= i < |runtime| ==> runtime[i].codeHash != Zeros(32)
  }

  ghost predicate AccessOk(access: seq<Access>)
  {
    && Ascending(AccessAddresses(access))
    && (forall i :: 0 <= i < |access| ==> Ascending(access[i].slots))
    && SlotTotal(access, |access|) <= MAX_STORAGE_SLOTS
  }

  /** A refresh rule names an access account and, unless it frees the whole storage, only slots of that account. */
  ghost predicate RefreshAllowed(access: seq<Access>, r: Refresh, j: int)
  {
    0 <= j < |access| && access[j].address == r.address
    && (!r.allStorage ==> forall k :: k in r.slots ==> k in access[j].slots)
  }

  ghost predicate RefreshOk(access: seq<Access>, r: Refresh)
  {
    Ascending(r.slots) && exists j :: RefreshAllowed(access, r, j)
  }

  ghost predicate ShapesOk(runtime: seq<RuntimeCode>, access: seq<Access>, refresh: seq<Refresh>)
  {
    && |runtime| <= MAX_ACCOUNTS && |access| <= MAX_ACCOUNTS && |refresh| <= MAX_ACCOUNTS
    && RuntimeOk(runtime) && AccessOk(access)
    && (forall i :: 0 <= i < |runtime| ==> runtime[i].address in AccessAddresses(access))
    && Ascending(RefreshAddresses(refresh)) && (forall i :: 0 <= i < |refresh| ==> RefreshOk(access, refresh[i]))
  }

  // ----- The validator -----

  /** Every adjacent pair ascends exactly when the whole sequence does. */
  method StrictlySorted(s: seq<int>) returns (ok: bool)
    ensures ok <==> Ascending(s)
  {
    var i := 1;
    while i < |s|
      invariant 1 <= i
      invariant forall j, k :: 0 <= j < k < i && k < |s| ==> s[j] < s[k]
    {
      if s[i - 1] >= s[i] {
        return false;
      }
      i := i + 1;
    }
    ok := true;
  }

  /** The access list as a map from address to slots. */
  ghost predicate Indexes(m: map<Address, seq<U256>>, access: seq<Access>, n: nat)
    requires n <= |access|
  {
    && (forall a :: a in m ==> a in AccessAddresses(access)[..n])
    && (forall i :: 0 <= i < n ==> access[i].address in m && m[access[i].address] == access[i].slots)
  }

  method IndexAccess(access: seq<Access>) returns (r: Result<map<Address, seq<U256>>, ColdError>)
    ensures r.Ok? <==> AccessOk(access)
    ensures r.Ok? ==> Indexes(r.value, access, |access|)
  {
    var index: map<Address, seq<U256>> := map[];
    var total := 0;
    var i := 0;
    while i < |access|
      invariant 0 <= i <= |access|
      invariant Indexes(index, access, i) && total == SlotTotal(access, i)
      invariant forall j :: 0 <= j < i ==> Ascending(access[j].slots)
    {
      var entry := access[i];
      if entry.address in index {
        DuplicateUnsorted(index, access, i);
        return Err(DuplicateAccess);
      }
      var sorted := StrictlySorted(entry.slots);
      if !sorted {
        return Err(AccessSlotsUnsorted);
      }
      IndexOneMore(index, access, i);
      index := index[entry.address := entry.slots];
      total := total + |entry.slots|;
      i := i + 1;
    }
    var ordered := StrictlySorted(AccessAddresses(access));
    if !ordered {
      return Err(AccessUnsorted);
    }
    if total > MAX_STORAGE_SLOTS {
      return Err(SlotCapExceeded);
    }
    r := Ok(index);
  }

  lemma IndexOneMore(m: map<Address, seq<U256>>, access: seq<Access>, n: nat)
    requires n < |access| && Indexes(m, access, n) && access[n].address !in m
    ensures Indexes(m[access[n].address := access[n].slots], access, n + 1)
  {
    var addresses := AccessAddresses(access);
    assert addresses[..n + 1] == addresses[..n] + [addresses[n]];
  }

  lemma DuplicateUnsorted(m: map<Address, seq<U256>>, access: seq<Access>, n: nat)
    requires n < |access| && Indexes(m, access, n) && access[n].address in m
    ensures !Ascending(AccessAddresses(access))
  {
    var addresses := AccessAddresses(access);
    assert addresses[n] in addresses[..n];
    var j :| 0 <= j < n && addresses[..n][j] == addresses[n];
    assert addresses[j] == addresses[n];
  }

  lemma IndexFinds(m: map<Address, seq<U256>>, access: seq<Access>, r: Refresh)
    requires Indexes(m, access, |access|) && AccessOk(access)
    ensures r.address in m <==> r.address in AccessAddresses(access)
    ensures (exists j :: RefreshAllowed(access, r, j)) ==> r.address in m
    ensures r.address in m ==> ((exists j :: RefreshAllowed(access, r, j))
              <==> (!r.allStorage ==> forall k :: k in r.slots ==> k in m[r.address]))
  {
    var addresses := AccessAddresses(access);
    assert addresses[..|access|] == addresses;
    if j :| RefreshAllowed(access, r, j) {
      assert addresses[j] == r.address;
    }
    if r.address in addresses {
      var i :| 0 <= i < |addresses| && addresses[i] == r.address;
      assert access[i].address == r.address && m[r.address] == access[i].slots;
      if j :| RefreshAllowed(access, r, j) {
        assert addresses[j] == addresses[i];
      }
      if !r.allStorage ==> forall k :: k in r.slots ==> k in m[r.address] {
        assert RefreshAllowed(access, r, i);
      }
    }
  }

  method CheckRefresh(access: seq<Access>, index: map<Address, seq<U256>>, r: Refresh) returns (e: Option<ColdError>)
    requires Indexes(index, access, |access|) && AccessOk(access)
    ensures e.None? <==> RefreshOk(access, r)
  {
    IndexFinds(index, access, r);
    if r.address !in index {
      return Some(RefreshOutsideAccess);
    }
    var sorted := StrictlySorted(r.slots);
    if !sorted {
      return Some(RefreshSlotsUnsorted);
    }
    SlotsAreSorted(index, access, r.address);
    var i := 0;
    while i < |r.slots| && !r.allStorage
      invariant 0 <= i <= |r.slots|
      invariant forall j :: 0 <= j < i ==> r.slots[j] in index[r.address]
      decreases |r.slots| - i
    {
      BinarySearchExact(index[r.address], r.slots[i]);
      if !BinarySearch(index[r.address], r.slots[i]) {
        return Some(RefreshSlotOutsideAccess);
      }
      i := i + 1;
    }
    e := None;
  }

  method CheckRefreshes(access: seq<Access>, index: map<Address, seq<U256>>, refresh: seq<Refresh>)
    returns (e: Option<ColdError>)
    requires Indexes(index, access, |access|) && AccessOk(access)
    ensures e.None? <==> Ascending(RefreshAddresses(refresh)) && forall i :: 0 <= i < |refresh| ==>
              RefreshOk(access, refresh[i])
  {
    var i := 0;
    while i < |refresh|
      invariant 0 <= i <= |refresh|
      invariant forall j, k :: 0 <= j < k < i ==> refresh[j].address < refresh[k].address
      invariant forall j {:trigger RefreshOk(access, refresh[j])} :: 0 <= j < i ==> RefreshOk(access, refresh[j])
    {
      if i > 0 && refresh[i - 1].address >= refresh[i].address {
        assert RefreshAddresses(refresh)[i - 1] >= RefreshAddresses(refresh)[i];
        return Some(RefreshUnsorted);
      }
      var wrong := CheckRefresh(access, index, refresh[i]);
      if wrong.Some? {
        return wrong;
      }
      i := i + 1;
    }
    e := None;
  }

  lemma SlotsAreSorted(m: map<Address, seq<U256>>, access: seq<Access>, a: Address)
    requires Indexes(m, access, |access|) && AccessOk(access) && a in m
    ensures Ascending(m[a])
  {
    var addresses := AccessAddresses(access);
    assert addresses[..|access|] == addresses;
    var i :| 0 <= i < |addresses| && addresses[i] == a;
    assert access[i].address == a;
  }

  method CheckRuntime(runtime: seq<RuntimeCode>) returns (e: Option<ColdError>)
    ensures e.None? <==> RuntimeOk(runtime)
  {
    var sorted := StrictlySorted(RuntimeAddresses(runtime));
    if !sorted {
      return Some(RuntimeUnsorted);
    }
    if exists i :: 0 <= i < |runtime| && runtime[i].codeHash == Zeros(32) {
      return Some(ZeroCodeHash);
    }
    e := None;
  }

  /** The validator accepts exactly the lists of the right shape: its map lookups and binary searches are exact. */
  method ValidateColdShapes(runtime: seq<RuntimeCode>, access: seq<Access>, refresh: seq<Refresh>)
    returns (e: Option<ColdError>)
    ensures e.None? <==> ShapesOk(runtime, access, refresh)
  {
    if |runtime| > MAX_ACCOUNTS || |access| > MAX_ACCOUNTS || |refresh| > MAX_ACCOUNTS {
      return Some(AccountCapExceeded);
    }
    var bad := CheckRuntime(runtime);
    if bad.Some? {
      return bad;
    }
    var indexed := IndexAccess(access);
    if indexed.Err? {
      return Some(indexed.error);
    }
    var index := indexed.value;
    assert AccessAddresses(access)[..|access|] == AccessAddresses(access);
    var i := 0;
    while i < |runtime|
      invariant 0 <= i <= |runtime|
      invariant forall j :: 0 <= j < i ==> runtime[j].address in AccessAddresses(access)
    {
      IndexFinds(index, access, Refresh(runtime[i].address, false, false, false, []));
      if runtime[i].address !in index {
        return Some(RuntimeWithoutAccess);
      }
      i := i + 1;
    }
    e := CheckRefreshes(access, index, refresh);
  }

  // ----- Runtime code -----

  ghost predicate RuntimeMatches(p: Platform, accounts: Accounts, entry: RuntimeCode)
  {
    entry.address in accounts && accounts[entry.address].code != []
    && CodeHash(p, accounts[entry.address]) == entry.codeHash
  }

  /** The deployed code is exactly the committed bundle. */
  ghost predicate RuntimeVerified(p: Platform, accounts: Accounts, runtime: seq<RuntimeCode>)
  {
    && (forall i :: 0 <= i < |runtime| ==> RuntimeMatches(p, accounts, runtime[i]))
    && (forall a :: a in accounts && accounts[a].code != [] ==> a in RuntimeAddresses(runtime))
  }

  method VerifyColdRuntimeCode(p: Platform, accounts: Accounts, runtime: seq<RuntimeCode>)
    returns (e: Option<ColdError>)
    ensures e.None? <==> RuntimeVerified(p, accounts, runtime)
  {
    var i := 0;
    while i < |runtime|
      invariant 0 <= i <= |runtime|
      invariant forall j :: 0 <= j < i ==> RuntimeMatches(p, accounts, runtime[j])
    {
      if runtime[i].address !in accounts {
        return Some(RuntimeAccountAbsent);
      }
      var account := accounts[runtime[i].address];
      if account.code == [] || CodeHash(p, account) != runtime[i].codeHash {
        return Some(RuntimeHashMismatch);
      }
      i := i + 1;
    }
    var order := KeyOrder(accounts);
    i := 0;
    while i < |order|
      invariant 0 <= i <= |order|
      invariant forall j :: 0 <= j < i && accounts[order[j]].code != [] ==> order[j] in RuntimeAddresses(runtime)
    {
      if accounts[order[i]].code != [] && order[i] !in RuntimeAddresses(runtime) {
        return Some(UncommittedRuntime);
      }
      i := i + 1;
    }
    e := None;
  }

  ghost function CodesOf(accounts: Accounts): set<Bytes>
  {
    set a | a in accounts :: accounts[a].code
  }

  /** Two states verified against one bundle run the same code at every address, unless two runtimes collide. */
  lemma RuntimeBinding(p: Platform, x: Accounts, y: Accounts, runtime: seq<RuntimeCode>, a: Address)
    requires RuntimeVerified(p, x, runtime) && RuntimeVerified(p, y, runtime)
    ensures CodeAt(x, a) == CodeAt(y, a) || Collide(p.keccak, CodesOf(x), CodesOf(y))
  {
    if a in RuntimeAddresses(runtime) {
      var i :| 0 <= i < |runtime| && RuntimeAddresses(runtime)[i] == a;
      assert RuntimeMatches(p, x, runtime[i]) && RuntimeMatches(p, y, runtime[i]);
      assert x[a].code in CodesOf(x) && y[a].code in CodesOf(y);
      EqualOrCollide(p.keccak, x[a].code, y[a].code, CodesOf(x), CodesOf(y));
    }
  }
}
