/** The static-state commitment of a cold template. */
module ColdState {
  import opened Bytes
  import opened Ordered
  import opened State
  import opened ColdShapes

  /** The type strings hashed as domain separators. */
  datatype Domains = Domains(
    accessArray: Bytes, accessType: Bytes, accessSlots: Bytes,
    refreshArray: Bytes, refreshType: Bytes, refreshSlots: Bytes,
    accountType: Bytes, storageType: Bytes, storageArray: Bytes, stateType: Bytes)

  // ----- Hashing lists of words -----

  function Listed(tag: B256, items: seq<B256>): Bytes
  {
    Concat([tag, U64Word(|items|)] + items)
  }

  lemma ListedInjective(tag: B256, a: seq<B256>, b: seq<B256>)
    requires Listed(tag, a) == Listed(tag, b)
    ensures a == b
  {
    var x, y := [tag, U64Word(|a|)] + a, [tag, U64Word(|b|)] + b;
    ConcatInjective(x, y);
    assert a == x[2..] && b == y[2..];
  }

  function SlotWords(slots: seq<U256>): (r: seq<B256>)
    ensures |r| == |slots|
  {
    seq<B256>(|slots|, i requires 0 <= i < |slots| => U256Word(slots[i]))
  }

  function SlotListBytes(h: Hash, domain: Bytes, slots: seq<U256>): Bytes
  {
    Listed(h(domain), SlotWords(slots))
  }

  lemma SlotListInjective(h: Hash, domain: Bytes, a: seq<U256>, b: seq<U256>)
    requires SlotListBytes(h, domain, a) == SlotListBytes(h, domain, b)
    ensures a == b
  {
    ListedInjective(h(domain), SlotWords(a), SlotWords(b));
    assert |SlotWords(a)| == |SlotWords(b)|;
    forall i | 0 <= i < |a|
      ensures a[i] == b[i]
    {
      assert SlotWords(a)[i] == SlotWords(b)[i];
      U256WordInjective(a[i], b[i]);
    }
  }

  /** The digests of a list of strings. */
  function Digests(h: Hash, strings: seq<Bytes>): (r: seq<B256>)
    ensures |r| == |strings|
  {
    seq<B256>(|strings|, i requires 0 <= i < |strings| => h(strings[i]))
  }

  function Strings(strings: seq<Bytes>): set<Bytes>
  {
    set i | 0 <= i < |strings| :: strings[i]
  }

  lemma DigestsBind(h: Hash, a: seq<Bytes>, b: seq<Bytes>, p: set<Bytes>, q: set<Bytes>)
    requires Digests(h, a) == Digests(h, b) && Strings(a) <= p && Strings(b) <= q && !Collide(h, p, q)
    ensures a == b
  {
    assert |Digests(h, a)| == |Digests(h, b)|;
    forall i | 0 <= i < |a|
      ensures a[i] == b[i]
    {
      assert Digests(h, a)[i] == Digests(h, b)[i];
      assert a[i] in Strings(a) && b[i] in Strings(b);
      EqualOrCollide(h, a[i], b[i], p, q);
    }
  }

  // ----- The access and refresh roots -----

  function Flag(b: bool): B256
  {
    U64Word(if b then 1 else 0)
  }

  lemma FlagInjective(a: bool, b: bool)
    requires Flag(a) == Flag(b)
    ensures a == b
  {
    U64WordInjective(if a then 1 else 0, if b then 1 else 0);
  }

  function AccessBytes(h: Hash, d: Domains, a: Access): Bytes
  {
    Concat([h(d.accessType), AddressWord(a.address), h(SlotListBytes(h, d.accessSlots, a.slots))])
  }

  function AccessStrings(h: Hash, d: Domains, access: seq<Access>): (r: seq<Bytes>)
    ensures |r| == |access|
  {
    seq(|access|, i requires 0 <= i < |access| => AccessBytes(h, d, access[i]))
  }

  function AccessRoot(h: Hash, d: Domains, access: seq<Access>): B256
  {
    h(Listed(h(d.accessArray), Digests(h, AccessStrings(h, d, access))))
  }

  function AccessPreimages(h: Hash, d: Domains, access: seq<Access>): set<Bytes>
  {
    {Listed(h(d.accessArray), Digests(h, AccessStrings(h, d, access)))} + Strings(AccessStrings(h, d, access))
    + set i | 0 <= i < |access| :: SlotListBytes(h, d.accessSlots, access[i].slots)
  }

  lemma AccessBytesBind(h: Hash, d: Domains, a: Access, b: Access, p: set<Bytes>, q: set<Bytes>)
    requires AccessBytes(h, d, a) == AccessBytes(h, d, b) && !Collide(h, p, q)
    requires SlotListBytes(h, d.accessSlots, a.slots) in p && SlotListBytes(h, d.accessSlots, b.slots) in q
    ensures a == b
  {
    var x := [h(d.accessType), AddressWord(a.address), h(SlotListBytes(h, d.accessSlots, a.slots))];
    var y := [h(d.accessType), AddressWord(b.address), h(SlotListBytes(h, d.accessSlots, b.slots))];
    ConcatInjective(x, y);
    assert x[1] == y[1] && x[2] == y[2];
    AddressWordInjective(a.address, b.address);
    EqualOrCollide(h, SlotListBytes(h, d.accessSlots, a.slots), SlotListBytes(h, d.accessSlots, b.slots), p, q);
    SlotListInjective(h, d.accessSlots, a.slots, b.slots);
  }

  /** The access root binds the access list. */
  lemma AccessRootBinding(h: Hash, d: Domains, a: seq<Access>, b: seq<Access>, p: set<Bytes>, q: set<Bytes>)
    requires AccessRoot(h, d, a) == AccessRoot(h, d, b) && !Collide(h, p, q)
    requires AccessPreimages(h, d, a) <= p && AccessPreimages(h, d, b) <= q
    ensures a == b
  {
    var x, y := AccessStrings(h, d, a), AccessStrings(h, d, b);
    assert Strings(x) <= AccessPreimages(h, d, a) && Strings(y) <= AccessPreimages(h, d, b);
    EqualOrCollide(h, Listed(h(d.accessArray), Digests(h, x)), Listed(h(d.accessArray), Digests(h, y)), p, q);
    ListedInjective(h(d.accessArray), Digests(h, x), Digests(h, y));
    DigestsBind(h, x, y, p, q);
    forall i | 0 <= i < |a|
      ensures a[i] == b[i]
    {
      assert x[i] == y[i];
      assert SlotListBytes(h, d.accessSlots, a[i].slots) in AccessPreimages(h, d, a);
      assert SlotListBytes(h, d.accessSlots, b[i].slots) in AccessPreimages(h, d, b);
      AccessBytesBind(h, d, a[i], b[i], p, q);
    }
  }

  function RefreshWords(h: Hash, d: Domains, r: Refresh): seq<B256>
  {
    [h(d.refreshType), AddressWord(r.address), Flag(r.nonce), Flag(r.balance), Flag(r.allStorage),
     h(SlotListBytes(h, d.refreshSlots, r.slots))]
  }

  function RefreshStrings(h: Hash, d: Domains, refresh: seq<Refresh>): (r: seq<Bytes>)
    ensures |r| == |refresh|
  {
    seq(|refresh|, i requires 0 <= i < |refresh| => Concat(RefreshWords(h, d, refresh[i])))
  }

  function RefreshRoot(h: Hash, d: Domains, refresh: seq<Refresh>): B256
  {
    h(Listed(h(d.refreshArray), Digests(h, RefreshStrings(h, d, refresh))))
  }

  function RefreshPreimages(h: Hash, d: Domains, refresh: seq<Refresh>): set<Bytes>
  {
    {Listed(h(d.refreshArray), Digests(h, RefreshStrings(h, d, refresh)))} + Strings(RefreshStrings(h, d, refresh))
    + set i | 0 <= i < |refresh| :: SlotListBytes(h, d.refreshSlots, refresh[i].slots)
  }

  lemma RefreshBytesBind(h: Hash, d: Domains, a: Refresh, b: Refresh, p: set<Bytes>, q: set<Bytes>)
    requires Concat(RefreshWords(h, d, a)) == Concat(RefreshWords(h, d, b)) && !Collide(h, p, q)
    requires SlotListBytes(h, d.refreshSlots, a.slots) in p && SlotListBytes(h, d.refreshSlots, b.slots) in q
    ensures a == b
  {
    var x, y := RefreshWords(h, d, a), RefreshWords(h, d, b);
    ConcatInjective(x, y);
    assert x[1] == y[1] && x[2] == y[2] && x[3] == y[3] && x[4] == y[4] && x[5] == y[5];
    AddressWordInjective(a.address, b.address);
    FlagInjective(a.nonce, b.nonce);
    FlagInjective(a.balance, b.balance);
    FlagInjective(a.allStorage, b.allStorage);
    EqualOrCollide(h, SlotListBytes(h, d.refreshSlots, a.slots), SlotListBytes(h, d.refreshSlots, b.slots), p, q);
    SlotListInjective(h, d.refreshSlots, a.slots, b.slots);
  }

  /** The refresh root binds the refresh list. */
  lemma RefreshRootBinding(h: Hash, d: Domains, a: seq<Refresh>, b: seq<Refresh>, p: set<Bytes>, q: set<Bytes>)
    requires RefreshRoot(h, d, a) == RefreshRoot(h, d, b) && !Collide(h, p, q)
    requires RefreshPreimages(h, d, a) <= p && RefreshPreimages(h, d, b) <= q
    ensures a == b
  {
    var x, y := RefreshStrings(h, d, a), RefreshStrings(h, d, b);
    assert Strings(x) <= RefreshPreimages(h, d, a) && Strings(y) <= RefreshPreimages(h, d, b);
    EqualOrCollide(h, Listed(h(d.refreshArray), Digests(h, x)), Listed(h(d.refreshArray), Digests(h, y)), p, q);
    ListedInjective(h(d.refreshArray), Digests(h, x), Digests(h, y));
    DigestsBind(h, x, y, p, q);
    forall i | 0 <= i < |a|
      ensures a[i] == b[i]
    {
      assert x[i] == y[i];
      assert SlotListBytes(h, d.refreshSlots, a[i].slots) in RefreshPreimages(h, d, a);
      assert SlotListBytes(h, d.refreshSlots, b[i].slots) in RefreshPreimages(h, d, b);
      RefreshBytesBind(h, d, a[i], b[i], p, q);
    }
  }

  // ----- The static view of one account -----

  datatype StaticView = StaticView(address: Address, nonce: U64, balance: U256, code: Bytes, slots: seq<U256>,
                                   values: seq<U256>)

  /** The refresh rule of an address; a later entry would replace an earlier one. */
  function RuleFor(refresh: seq<Refresh>, a: Address): Option<Refresh>
  {
    if refresh == [] then None
    else if refresh[|refresh| - 1].address == a then Some(refresh[|refresh| - 1])
    else RuleFor(refresh[..|refresh| - 1], a)
  }

  /** What a rule lets a room change, in the plain sense of list membership. */
  predicate SlotRefreshable(rule: Option<Refresh>, k: U256)
  {
    rule.Some? && (rule.value.allStorage || k in rule.value.slots)
  }

  /** The listed slots that binary search does not find in the rule. */
  function KeptSlots(slots: seq<U256>, rule: Option<Refresh>): seq<U256>
  {
    if slots == [] then []
    else
      var rest, last := KeptSlots(slots[..|slots| - 1], rule), slots[|slots| - 1];
      if rule.Some? && BinarySearch(rule.value.slots, last) then rest else rest + [last]
  }

  function StaticSlots(access: Access, rule: Option<Refresh>): seq<U256>
  {
    if rule.Some? && rule.value.allStorage then [] else KeptSlots(access.slots, rule)
  }

  lemma {:induction false} KeptSlotsExact(slots: seq<U256>, rule: Option<Refresh>, k: U256)
    requires rule.Some? ==> Ascending(rule.value.slots)
    ensures k in KeptSlots(slots, rule) <==> k in slots && !(rule.Some? && k in rule.value.slots)
  {
    if slots != [] {
      var last := slots[|slots| - 1];
      KeptSlotsExact(slots[..|slots| - 1], rule, k);
      assert k in slots <==> k in slots[..|slots| - 1] || k == last;
      if rule.Some? {
        BinarySearchExact(rule.value.slots, last);
      }
    }
  }

  /** The static slots are exactly the access slots no rule refreshes. */
  lemma StaticSlotsExact(access: Access, rule: Option<Refresh>, k: U256)
    requires rule.Some? ==> Ascending(rule.value.slots)
    ensures k in StaticSlots(access, rule) <==> k in access.slots && !SlotRefreshable(rule, k)
  {
    KeptSlotsExact(access.slots, rule, k);
  }

  function ValuesOf(accounts: Accounts, a: Address, slots: seq<U256>): (r: seq<U256>)
    ensures |r| == |slots|
  {
    seq<U256>(|slots|, i requires 0 <= i < |slots| => SlotValue(accounts, a, slots[i]))
  }

  function View(accounts: Accounts, access: Access, rule: Option<Refresh>): StaticView
    requires access.address in accounts
  {
    var record, slots := accounts[access.address], StaticSlots(access, rule);
    StaticView(access.address,
               if rule.Some? && rule.value.nonce then 0 else record.nonce,
               if rule.Some? && rule.value.balance then 0 else record.balance,
               record.code, slots, ValuesOf(accounts, access.address, slots))
  }

  /** All resident slots are found in the access entry, unless the rule frees the whole storage. */
  predicate InsideAccess(accounts: Accounts, access: Access, rule: Option<Refresh>)
    requires access.address in accounts
  {
    (rule.Some? && rule.value.allStorage)
    || forall k :: k in accounts[access.address].storage ==> BinarySearch(access.slots, k)
  }

  ghost predicate AgreeAt(x: Accounts, y: Accounts, a: Address, rule: Option<Refresh>)
    requires a in x && a in y
  {
    && ((rule.Some? && rule.value.nonce) || x[a].nonce == y[a].nonce)
    && ((rule.Some? && rule.value.balance) || x[a].balance == y[a].balance)
    && x[a].code == y[a].code
    && forall k: U256 :: !SlotRefreshable(rule, k) ==> SlotValue(x, a, k) == SlotValue(y, a, k)
  }

  lemma ResidentInAccess(accounts: Accounts, access: Access, rule: Option<Refresh>, k: U256)
    requires access.address in accounts && InsideAccess(accounts, access, rule) && Ascending(access.slots)
    ensures SlotRefreshable(rule, k) || k in access.slots || SlotValue(accounts, access.address, k) == 0
  {
    BinarySearchExact(access.slots, k);
  }

  /** The views of one account in two states are equal exactly when the states agree on everything not refreshable. */
  lemma ViewsEqualIffAgree(x: Accounts, y: Accounts, access: Access, rule: Option<Refresh>)
    requires access.address in x && access.address in y && Ascending(access.slots)
    requires InsideAccess(x, access, rule) && InsideAccess(y, access, rule)
    requires rule.Some? ==> Ascending(rule.value.slots)
    ensures View(x, access, rule) == View(y, access, rule) <==> AgreeAt(x, y, access.address, rule)
  {
    var a, slots := access.address, StaticSlots(access, rule);
    if ValuesOf(x, a, slots) == ValuesOf(y, a, slots) {
      forall k: U256 | !SlotRefreshable(rule, k)
        ensures SlotValue(x, a, k) == SlotValue(y, a, k)
      {
        StaticSlotsExact(access, rule, k);
        ResidentInAccess(x, access, rule, k);
        ResidentInAccess(y, access, rule, k);
        if k in slots {
          var i :| 0 <= i < |slots| && slots[i] == k;
          assert ValuesOf(x, a, slots)[i] == ValuesOf(y, a, slots)[i];
        }
      }
    }
    if AgreeAt(x, y, a, rule) {
      forall i | 0 <= i < |slots|
        ensures ValuesOf(x, a, slots)[i] == ValuesOf(y, a, slots)[i]
      {
        StaticSlotsExact(access, rule, slots[i]);
      }
    }
  }

  // ----- Hashing the views -----

  function StaticSlotBytes(h: Hash, d: Domains, slot: U256, value: U256): Bytes
  {
    Concat([h(d.storageType), U256Word(slot), U256Word(value)])
  }

  function StorageStrings(h: Hash, d: Domains, view: StaticView): (r: seq<Bytes>)
    requires |view.slots| == |view.values|
    ensures |r| == |view.slots|
  {
    seq(|view.slots|, i requires 0 <= i < |view.slots| => StaticSlotBytes(h, d, view.slots[i], view.values[i]))
  }

  function StorageBytes(h: Hash, d: Domains, view: StaticView): Bytes
    requires |view.slots| == |view.values|
  {
    Listed(h(d.storageArray), Digests(h, StorageStrings(h, d, view)))
  }

  function ViewWords(h: Hash, d: Domains, view: StaticView): seq<B256>
    requires |view.slots| == |view.values|
  {
    [h(d.accountType), AddressWord(view.address), U64Word(view.nonce), U256Word(view.balance), h(view.code),
     h(StorageBytes(h, d, view))]
  }

  ghost predicate Balanced(views: seq<StaticView>)
  {
    forall i :: 0 <= i < |views| ==> |views[i].slots| == |views[i].values|
  }

  function ViewStrings(h: Hash, d: Domains, views: seq<StaticView>): (r: seq<Bytes>)
    requires Balanced(views)
    ensures |r| == |views|
  {
    seq(|views|, i requires 0 <= i < |views| => Concat(ViewWords(h, d, views[i])))
  }

  function ViewPreimages(h: Hash, d: Domains, view: StaticView): set<Bytes>
    requires |view.slots| == |view.values|
  {
    {view.code, StorageBytes(h, d, view)} + Strings(StorageStrings(h, d, view))
  }

  lemma StorageBind(h: Hash, d: Domains, a: StaticView, b: StaticView, p: set<Bytes>, q: set<Bytes>)
    requires |a.slots| == |a.values| && |b.slots| == |b.values| && h(StorageBytes(h, d, a)) == h(StorageBytes(h, d, b))
    requires ViewPreimages(h, d, a) <= p && ViewPreimages(h, d, b) <= q && !Collide(h, p, q)
    ensures a.slots == b.slots && a.values == b.values
  {
    var x, y := StorageStrings(h, d, a), StorageStrings(h, d, b);
    EqualOrCollide(h, StorageBytes(h, d, a), StorageBytes(h, d, b), p, q);
    ListedInjective(h(d.storageArray), Digests(h, x), Digests(h, y));
    DigestsBind(h, x, y, p, q);
    forall i | 0 <= i < |a.slots|
      ensures a.slots[i] == b.slots[i] && a.values[i] == b.values[i]
    {
      assert x[i] == y[i];
      var v := [h(d.storageType), U256Word(a.slots[i]), U256Word(a.values[i])];
      var w := [h(d.storageType), U256Word(b.slots[i]), U256Word(b.values[i])];
      ConcatInjective(v, w);
      assert v[1] == w[1] && v[2] == w[2];
      U256WordInjective(a.slots[i], b.slots[i]);
      U256WordInjective(a.values[i], b.values[i]);
    }
  }

  lemma ViewBind(h: Hash, d: Domains, a: StaticView, b: StaticView, p: set<Bytes>, q: set<Bytes>)
    requires |a.slots| == |a.values| && |b.slots| == |b.values|
             && Concat(ViewWords(h, d, a)) == Concat(ViewWords(h, d, b))
    requires ViewPreimages(h, d, a) <= p && ViewPreimages(h, d, b) <= q && !Collide(h, p, q)
    ensures a == b
  {
    var x, y := ViewWords(h, d, a), ViewWords(h, d, b);
    ConcatInjective(x, y);
    assert x[1] == y[1] && x[2] == y[2] && x[3] == y[3] && x[4] == y[4] && x[5] == y[5];
    AddressWordInjective(a.address, b.address);
    U64WordInjective(a.nonce, b.nonce);
    U256WordInjective(a.balance, b.balance);
    EqualOrCollide(h, a.code, b.code, p, q);
    StorageBind(h, d, a, b, p, q);
  }

  // ----- The commitment -----

  /** Everything the commitment depends on. */
  datatype Static = Static(access: seq<Access>, refresh: seq<Refresh>, views: seq<StaticView>)

  function CommitmentBytes(h: Hash, d: Domains, s: Static): Bytes
    requires Balanced(s.views)
  {
    Concat([h(d.stateType), AccessRoot(h, d, s.access), RefreshRoot(h, d, s.refresh), U64Word(|s.views|)]
           + Digests(h, ViewStrings(h, d, s.views)))
  }

  ghost function CommitmentPreimages(h: Hash, d: Domains, s: Static): set<Bytes>
    requires Balanced(s.views)
  {
    {CommitmentBytes(h, d, s)} + AccessPreimages(h, d, s.access) + RefreshPreimages(h, d, s.refresh)
    + Strings(ViewStrings(h, d, s.views))
    + set i, x | 0 <= i < |s.views| && x in ViewPreimages(h, d, s.views[i]) :: x
  }

  lemma CommitmentWordsBind(h: Hash, d: Domains, a: Static, b: Static)
    requires Balanced(a.views) && Balanced(b.views) && CommitmentBytes(h, d, a) == CommitmentBytes(h, d, b)
    ensures AccessRoot(h, d, a.access) == AccessRoot(h, d, b.access)
    ensures RefreshRoot(h, d, a.refresh) == RefreshRoot(h, d, b.refresh)
    ensures Digests(h, ViewStrings(h, d, a.views)) == Digests(h, ViewStrings(h, d, b.views))
  {
    var u, v := Digests(h, ViewStrings(h, d, a.views)), Digests(h, ViewStrings(h, d, b.views));
    var x := [h(d.stateType), AccessRoot(h, d, a.access), RefreshRoot(h, d, a.refresh), U64Word(|a.views|)] + u;
    var y := [h(d.stateType), AccessRoot(h, d, b.access), RefreshRoot(h, d, b.refresh), U64Word(|b.views|)] + v;
    ConcatInjective(x, y);
    assert x[1] == y[1] && x[2] == y[2];
    assert u == x[4..] && v == y[4..];
  }

  lemma ViewPreimagesIn(h: Hash, d: Domains, s: Static, i: nat)
    requires Balanced(s.views) && i < |s.views|
    ensures ViewPreimages(h, d, s.views[i]) <= CommitmentPreimages(h, d, s)
  {
  }

  /** Equal commitments come from the same lists and the same views, unless hashed strings collide. */
  lemma CommitmentBinding(h: Hash, d: Domains, a: Static, b: Static)
    requires Balanced(a.views) && Balanced(b.views) && h(CommitmentBytes(h, d, a)) == h(CommitmentBytes(h, d, b))
    ensures a == b || Collide(h, CommitmentPreimages(h, d, a), CommitmentPreimages(h, d, b))
  {
    var p, q := CommitmentPreimages(h, d, a), CommitmentPreimages(h, d, b);
    if !Collide(h, p, q) {
      EqualOrCollide(h, CommitmentBytes(h, d, a), CommitmentBytes(h, d, b), p, q);
      CommitmentWordsBind(h, d, a, b);
      AccessRootBinding(h, d, a.access, b.access, p, q);
      RefreshRootBinding(h, d, a.refresh, b.refresh, p, q);
      DigestsBind(h, ViewStrings(h, d, a.views), ViewStrings(h, d, b.views), p, q);
      forall i | 0 <= i < |a.views|
        ensures a.views[i] == b.views[i]
      {
        assert ViewStrings(h, d, a.views)[i] == ViewStrings(h, d, b.views)[i];
        ViewPreimagesIn(h, d, a, i);
        ViewPreimagesIn(h, d, b, i);
        ViewBind(h, d, a.views[i], b.views[i], p, q);
      }
    }
  }

  /** The state has every access account and nothing resident outside the access set. */
  ghost predicate Committable(accounts: Accounts, access: seq<Access>, refresh: seq<Refresh>)
  {
    forall i :: 0 <= i < |access| ==>
      access[i].address in accounts && InsideAccess(accounts, access[i], RuleFor(refresh, access[i].address))
  }

  function StaticOf(accounts: Accounts, access: seq<Access>, refresh: seq<Refresh>): (s: Static)
    requires Committable(accounts, access, refresh)
    ensures Balanced(s.views) && |s.views| == |access|
  {
    Static(access, refresh,
           seq(|access|, i requires 0 <= i < |access| => View(accounts, access[i],
                                                              RuleFor(refresh, access[i].address))))
  }

  /** The digest of one account's view. */
  function ViewDigest(h: Hash, d: Domains, accounts: Accounts, access: Access, rule: Option<Refresh>): B256
    requires access.address in accounts
  {
    h(Concat(ViewWords(h, d, View(accounts, access, rule))))
  }

  method HashStorage(h: Hash, d: Domains, accounts: Accounts, a: Address, slots: seq<U256>) returns (hashes: seq<B256>)
    ensures |hashes| == |slots|
    ensures forall j :: 0 <= j < |slots| ==>
              hashes[j] == h(StaticSlotBytes(h, d, slots[j], SlotValue(accounts, a, slots[j])))
  {
    hashes := [];
    var i := 0;
    while i < |slots|
      invariant 0 <= i <= |slots| && |hashes| == i
      invariant forall j :: 0 <= j < i ==>
                  hashes[j] == h(StaticSlotBytes(h, d, slots[j], SlotValue(accounts, a, slots[j])))
    {
      var value := SlotValue(accounts, a, slots[i]);
      hashes := hashes + [h(StaticSlotBytes(h, d, slots[i], value))];
      i := i + 1;
    }
  }

  method HashView(p: Platform, d: Domains, accounts: Accounts, access: Access, rule: Option<Refresh>) returns (r: B256)
    requires access.address in accounts
    ensures r == ViewDigest(p.keccak, d, accounts, access, rule)
  {
    var h, account := p.keccak, accounts[access.address];
    var hashes := HashStorage(h, d, accounts, access.address, StaticSlots(access, rule));
    assert hashes == Digests(h, StorageStrings(h, d, View(accounts, access, rule)));
    var storageHash := h(Listed(h(d.storageArray), hashes));
    var nonce := if rule.Some? && rule.value.nonce then 0 else account.nonce;
    var balance := if rule.Some? && rule.value.balance then 0 else account.balance;
    r := h(Concat([h(d.accountType), AddressWord(access.address), U64Word(nonce), U256Word(balance),
                   CodeHash(p, account), storageHash]));
  }

  method HashViews(p: Platform, d: Domains, accounts: Accounts, access: seq<Access>, refresh: seq<Refresh>)
    returns (r: Result<seq<B256>, ColdError>)
    ensures r.Ok? <==> Committable(accounts, access, refresh)
    ensures r.Ok? ==> |r.value| == |access| && forall j :: 0 <= j < |access| ==>
      r.value[j] == ViewDigest(p.keccak, d, accounts, access[j], RuleFor(refresh, access[j].address))
  {
    var hashes: seq<B256> := [];
    var i := 0;
    while i < |access|
      invariant 0 <= i <= |access| && |hashes| == i
      invariant forall j :: 0 <= j < i ==>
        access[j].address in accounts && InsideAccess(accounts, access[j], RuleFor(refresh, access[j].address))
      invariant forall j :: 0 <= j < i ==>
        hashes[j] == ViewDigest(p.keccak, d, accounts, access[j], RuleFor(refresh, access[j].address))
    {
      var rule := RuleFor(refresh, access[i].address);
      if access[i].address !in accounts {
        return Err(AccessAccountAbsent);
      }
      if !InsideAccess(accounts, access[i], rule) {
        return Err(StorageOutsideAccess);
      }
      var hash := HashView(p, d, accounts, access[i], rule);
      hashes := hashes + [hash];
      i := i + 1;
    }
    r := Ok(hashes);
  }

  /** The commitment exists exactly for valid lists and covered states, and is the digest of the static view. */
  method ColdStaticStateCommitment(p: Platform, d: Domains, accounts: Accounts, access: seq<Access>,
                                   refresh: seq<Refresh>)
    returns (r: Result<B256, ColdError>)
    ensures r.Ok? <==> ShapesOk([], access, refresh) && Committable(accounts, access, refresh)
    ensures r.Ok? ==> r.value == p.keccak(CommitmentBytes(p.keccak, d, StaticOf(accounts, access, refresh)))
  {
    var bad := ValidateColdShapes([], access, refresh);
    if bad.Some? {
      return Err(bad.value);
    }
    var hashed := HashViews(p, d, accounts, access, refresh);
    if hashed.Err? {
      return Err(hashed.error);
    }
    var h, hashes := p.keccak, hashed.value;
    assert hashes == Digests(h, ViewStrings(h, d, StaticOf(accounts, access, refresh).views));
    r := Ok(h(Concat([h(d.stateType), AccessRoot(h, d, access), RefreshRoot(h, d, refresh),
                      U64Word(|hashes|)] + hashes)));
  }

  // ----- What the commitment means -----

  /** Two states agree on every non-refreshable nonce, balance, code and slot of every access account. */
  ghost predicate Agree(x: Accounts, y: Accounts, access: seq<Access>, refresh: seq<Refresh>)
    requires forall i :: 0 <= i < |access| ==> access[i].address in x && access[i].address in y
  {
    forall i :: 0 <= i < |access| ==> AgreeAt(x, y, access[i].address, RuleFor(refresh, access[i].address))
  }

  lemma {:induction false} RuleSorted(access: seq<Access>, refresh: seq<Refresh>, a: Address)
    requires forall i :: 0 <= i < |refresh| ==> Ascending(refresh[i].slots)
    ensures var rule := RuleFor(refresh, a); rule.Some? ==> Ascending(rule.value.slots)
  {
    if refresh != [] && refresh[|refresh| - 1].address != a {
      RuleSorted(access, refresh[..|refresh| - 1], a);
    }
  }

  lemma StaticEqualIffAgree(x: Accounts, y: Accounts, access: seq<Access>, refresh: seq<Refresh>)
    requires ShapesOk([], access, refresh) && Committable(x, access, refresh) && Committable(y, access, refresh)
    ensures StaticOf(x, access, refresh) == StaticOf(y, access, refresh) <==> Agree(x, y, access, refresh)
  {
    var s, t := StaticOf(x, access, refresh), StaticOf(y, access, refresh);
    forall i | 0 <= i < |access|
      ensures s.views[i] == t.views[i] <==> AgreeAt(x, y, access[i].address, RuleFor(refresh, access[i].address))
    {
      RuleSorted(access, refresh, access[i].address);
      ViewsEqualIffAgree(x, y, access[i], RuleFor(refresh, access[i].address));
    }
    assert s == t <==> s.views == t.views;
    assert s.views == t.views <==> forall i :: 0 <= i < |access| ==> s.views[i] == t.views[i];
  }

  /** Agreeing states have equal commitments; equal commitments mean agreement, unless hashed strings collide. */
  lemma CommitmentMeansAgreement(p: Platform, d: Domains, x: Accounts, y: Accounts, access: seq<Access>,
                                 refresh: seq<Refresh>)
    requires ShapesOk([], access, refresh) && Committable(x, access, refresh) && Committable(y, access, refresh)
    ensures var s, t := StaticOf(x, access, refresh), StaticOf(y, access, refresh);
            var same := p.keccak(CommitmentBytes(p.keccak, d, s)) == p.keccak(CommitmentBytes(p.keccak, d, t));
            && (Agree(x, y, access, refresh) ==> same)
            && (same ==> Agree(x, y, access, refresh)
                         || Collide(p.keccak, CommitmentPreimages(p.keccak, d, s), CommitmentPreimages(p.keccak, d, t)))
  {
    var s, t := StaticOf(x, access, refresh), StaticOf(y, access, refresh);
    StaticEqualIffAgree(x, y, access, refresh);
    if p.keccak(CommitmentBytes(p.keccak, d, s)) == p.keccak(CommitmentBytes(p.keccak, d, t)) {
      CommitmentBinding(p.keccak, d, s, t);
    }
  }
}
