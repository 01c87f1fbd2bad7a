/** What a v5 batch writes into its opening state before the policy is built: mirrored L1 slots and deposit credits. */
module OpeningWrites {
  import opened Bytes
  import opened State
  import opened StateLaws
  import opened Policy
  import opened Compact
  import opened FromV5
  import opened Inbox

  // ----- Mirrored L1 storage -----

  datatype Mirror = Mirror(sourceKey: U256, contract: Address, slot: U256)

  /** One L1 import; `values` are the source slots whose proofs verified. */
  datatype L1Import = L1Import(adapter: B256, version: B256, source: Address, values: map<U256, U256>,
                               mirrors: seq<Mirror>)

  /** The policy's bindings of one adapter, in order. */
  function AdapterBindings(imports: seq<Import>, adapter: B256, version: B256, source: Address): (r: seq<Import>)
    ensures forall i :: 0 <= i < |r| ==> r[i] in imports
  {
    if imports == [] then []
    else
      var rest := AdapterBindings(imports[1..], adapter, version, source);
      if imports[0].adapter == adapter && imports[0].version == version && imports[0].source == source
      then [imports[0]] + rest else rest
  }

  predicate MirrorMatches(m: Mirror, i: Import)
  {
    m.sourceKey == i.sourceKey && m.contract == i.contract && m.slot == i.slot
  }

  /** One mirror write: the certified binding, an authenticated value, a declared slot of a resident contract. */
  function MirrorOne(db: Db, values: map<U256, U256>, m: Mirror, i: Import): Option<Db>
  {
    if !MirrorMatches(m, i) || m.sourceKey !in values || db.accessStorage.None? then None
    else WriteSlot(db, m.contract, m.slot, values[m.sourceKey])
  }

  function MirrorAll(db: Db, values: map<U256, U256>, mirrors: seq<Mirror>, bindings: seq<Import>, n: nat): Option<Db>
    requires |mirrors| == |bindings| && n <= |mirrors|
  {
    if n == 0 then Some(db)
    else
      match MirrorAll(db, values, mirrors, bindings, n - 1)
      case None => None
      case Some(before) => MirrorOne(before, values, mirrors[n - 1], bindings[n - 1])
  }

  /** The state after an import. */
  function Imported(v: PolicyV5, l1: Option<L1Import>, db: Db): Option<Db>
  {
    if l1.None? then Some(db)
    else
      var bindings := AdapterBindings(v.imports, l1.value.adapter, l1.value.version, l1.value.source);
      if |bindings| != |l1.value.mirrors| then None
      else MirrorAll(db, l1.value.values, l1.value.mirrors, bindings, |bindings|)
  }

  lemma {:induction false} MirrorFailureStays(db: Db, values: map<U256, U256>, mirrors: seq<Mirror>,
                                              bindings: seq<Import>, i: nat, n: nat)
    requires |mirrors| == |bindings| && i <= n <= |mirrors| && MirrorAll(db, values, mirrors, bindings, i).None?
    ensures MirrorAll(db, values, mirrors, bindings, n).None?
  {
    if i < n {
      MirrorFailureStays(db, values, mirrors, bindings, i, n - 1);
    }
  }

  method ApplyImport(v: PolicyV5, l1: Option<L1Import>, db: Db) returns (r: Option<Db>)
    ensures r == Imported(v, l1, db)
  {
    if l1.None? {
      return Some(db);
    }
    var values, mirrors := l1.value.values, l1.value.mirrors;
    var bindings := AdapterBindings(v.imports, l1.value.adapter, l1.value.version, l1.value.source);
    if |bindings| != |mirrors| {
      return None;
    }
    var state := db;
    var i := 0;
    while i < |mirrors|
      invariant 0 <= i <= |mirrors|
      invariant MirrorAll(db, values, mirrors, bindings, i) == Some(state)
    {
      var next := MirrorOne(state, values, mirrors[i], bindings[i]);
      if next.None? {
        MirrorFailureStays(db, values, mirrors, bindings, i + 1, |mirrors|);
        return None;
      }
      state := next.value;
      i := i + 1;
    }
    r := Some(state);
  }

  /** The source key of the last of the first n mirrors that names a slot. */
  function LastMirror(mirrors: seq<Mirror>, a: Address, k: U256, n: nat): Option<U256>
    requires n <= |mirrors|
  {
    if n == 0 then None
    else if mirrors[n - 1].contract == a && mirrors[n - 1].slot == k then Some(mirrors[n - 1].sourceKey)
    else LastMirror(mirrors, a, k, n - 1)
  }

  lemma WriteSlotExact(db: Db, a: Address, slot: U256, value: U256, b: Address, k: U256)
    requires WriteSlot(db, a, slot, value).Some?
    ensures var next := WriteSlot(db, a, slot, value).value;
            && SlotValue(next.accounts, b, k) == (if b == a && k == slot then value else SlotValue(db.accounts, b, k))
            && BalanceAt(next.accounts, b) == BalanceAt(db.accounts, b) && SameButValues(db, next)
  {
  }

  lemma {:induction false} MirrorAllExact(db: Db, values: map<U256, U256>, mirrors: seq<Mirror>, bindings: seq<Import>,
                                          n: nat, a: Address, k: U256)
    requires |mirrors| == |bindings| && n <= |mirrors| && MirrorAll(db, values, mirrors, bindings, n).Some?
    ensures var next, key := MirrorAll(db, values, mirrors, bindings, n).value, LastMirror(mirrors, a, k, n);
            && (key.Some? ==> key.value in values)
            && SlotValue(next.accounts, a, k) == (if key.Some? then values[key.value] else SlotValue(db.accounts, a, k))
            && BalanceAt(next.accounts, a) == BalanceAt(db.accounts, a)
  {
    if n > 0 {
      MirrorAllExact(db, values, mirrors, bindings, n - 1, a, k);
      var before, m := MirrorAll(db, values, mirrors, bindings, n - 1).value, mirrors[n - 1];
      WriteSlotExact(before, m.contract, m.slot, values[m.sourceKey], a, k);
    }
  }

  /** An import leaves every mirrored slot at its authenticated L1 value and every other slot and balance alone. */
  lemma ImportExact(v: PolicyV5, l1: L1Import, db: Db, a: Address, k: U256)
    requires Imported(v, Some(l1), db).Some?
    ensures var next, key := Imported(v, Some(l1), db).value, LastMirror(l1.mirrors, a, k, |l1.mirrors|);
            && (key.Some? ==> key.value in l1.values)
            && SlotValue(next.accounts, a, k)
                == (if key.Some? then l1.values[key.value] else SlotValue(db.accounts, a, k))
            && BalanceAt(next.accounts, a) == BalanceAt(db.accounts, a)
  {
    var bindings := AdapterBindings(v.imports, l1.adapter, l1.version, l1.source);
    MirrorAllExact(db, l1.values, l1.mirrors, bindings, |bindings|, a, k);
  }

  /** The policy binds a source slot of this import. */
  predicate Binds(x: Import, l1: L1Import)
  {
    x.adapter == l1.adapter && x.version == l1.version && x.source == l1.source
  }

  lemma {:induction false} BindingsExact(imports: seq<Import>, l1: L1Import, x: Import)
    ensures multiset(AdapterBindings(imports, l1.adapter, l1.version, l1.source))[x]
         == if Binds(x, l1) then multiset(imports)[x] else 0
    decreases |imports|
  {
    if imports != [] {
      BindingsExact(imports[1..], l1, x);
      assert imports == [imports[0]] + imports[1..];
    }
  }

  lemma {:induction false} MirrorsMatch(db: Db, values: map<U256, U256>, mirrors: seq<Mirror>, bindings: seq<Import>,
                                        n: nat)
    requires |mirrors| == |bindings| && n <= |mirrors| && MirrorAll(db, values, mirrors, bindings, n).Some?
    ensures forall i :: 0 <= i < n ==>
              mirrors[i] == Mirror(bindings[i].sourceKey, bindings[i].contract, bindings[i].slot)
              && bindings[i].sourceKey in values
  {
    if n > 0 {
      MirrorsMatch(db, values, mirrors, bindings, n - 1);
    }
  }

  /** An accepted import mirrors exactly the bindings the policy has for its adapter, version and source, in order, each
      from an authenticated source slot. */
  lemma ImportIsCertified(v: PolicyV5, l1: L1Import, db: Db) returns (bindings: seq<Import>)
    requires Imported(v, Some(l1), db).Some?
    ensures forall x :: multiset(bindings)[x] == if Binds(x, l1) then multiset(v.imports)[x] else 0
    ensures |l1.mirrors| == |bindings|
    ensures forall i :: 0 <= i < |bindings| ==>
              l1.mirrors[i] == Mirror(bindings[i].sourceKey, bindings[i].contract, bindings[i].slot)
              && bindings[i].sourceKey in l1.values
  {
    bindings := AdapterBindings(v.imports, l1.adapter, l1.version, l1.source);
    forall x
      ensures multiset(bindings)[x] == if Binds(x, l1) then multiset(v.imports)[x] else 0
    {
      BindingsExact(v.imports, l1, x);
    }
    MirrorsMatch(db, l1.values, l1.mirrors, bindings, |bindings|);
  }

  // ----- Deposits -----

  datatype Deposit = Deposit(id: U64, beneficiary: Address, asset: Address, amount: U256, refunded: bool)

  /** The fee of one admission receipt and the deposit it names. */
  datatype Fee = Fee(deposit: U64, amount: U256)

  /** The fees of the first n receipts that name a deposit. */
  function FeesOf(fees: seq<Fee>, id: U64, n: nat): nat
    requires n <= |fees|
  {
    if n == 0 then 0 else FeesOf(fees, id, n - 1) + if fees[n - 1].deposit == id then fees[n - 1].amount else 0
  }

  /** What a deposit credits: nothing when refunded, else its amount less its fees, which may not exceed it. */
  function NetOf(d: Deposit, fees: seq<Fee>): Option<U256>
  {
    if d.refunded then Some(0)
    else if FeesOf(fees, d.id, |fees|) > d.amount then None
    else Some(d.amount - FeesOf(fees, d.id, |fees|))
  }

  function FindToken(assets: seq<ExitAsset>, asset: Address): Option<ExitAsset>
  {
    if assets == [] then None
    else if assets[0].asset == asset && assets[0].kind == 1 then Some(assets[0])
    else FindToken(assets[1..], asset)
  }

  /** The token found is the first asset listed as one. */
  lemma {:induction false} TokenFound(assets: seq<ExitAsset>, asset: Address, i: nat)
    requires i < |assets| && assets[i].asset == asset && assets[i].kind == 1
    requires forall j :: 0 <= j < i ==> !(assets[j].asset == asset && assets[j].kind == 1)
    ensures FindToken(assets, asset) == Some(assets[i])
    decreases |assets|
  {
    if i > 0 {
      TokenFound(assets[1..], asset, i - 1);
    }
  }

  lemma {:induction false} NoTokenFound(assets: seq<ExitAsset>, asset: Address)
    requires forall j :: 0 <= j < |assets| ==> !(assets[j].asset == asset && assets[j].kind == 1)
    ensures FindToken(assets, asset).None?
    decreases |assets|
  {
    if assets != [] {
      NoTokenFound(assets[1..], asset);
    }
  }

  /** The in-room token bound to an asset. */
  function BoundToken(v: PolicyV5, asset: Address): Option<ExitAsset>
  {
    if v.exit.None? then None else FindToken(v.exit.value.assets, asset)
  }

  /** Where a deposit's net value goes. */
  datatype Destination = Nowhere | Balance(account: Address) | Slot(token: Address, slot: U256)

  function DestinationOf(p: Platform, v: PolicyV5, fees: seq<Fee>, d: Deposit): Destination
  {
    if NetOf(d, fees) == Some(0) || NetOf(d, fees).None? then Nowhere
    else if d.asset == 0 then Balance(d.beneficiary)
    else
      var bound := BoundToken(v, d.asset);
      if bound.None? then Nowhere else Slot(bound.value.token, MappingSlot(p, d.beneficiary, bound.value.balanceSlot))
  }

  /** Add a net value to the beneficiary's balance, or to the beneficiary's balance slot of the bound token. */
  function Place(p: Platform, v: PolicyV5, db: Db, d: Deposit, net: U256): Option<Db>
  {
    if net == 0 then Some(db)
    else if d.asset == 0 then CreditOne(p, db, Credit(Native, d.beneficiary, net))
    else
      var bound := BoundToken(v, d.asset);
      if bound.None? then None
      else AddToSlot(db, bound.value.token, MappingSlot(p, d.beneficiary, bound.value.balanceSlot), net)
  }

  function CreditDeposit(p: Platform, v: PolicyV5, fees: seq<Fee>, db: Db, d: Deposit): Option<Db>
  {
    var net := NetOf(d, fees);
    if net.None? then None else Place(p, v, db, d, net.value)
  }

  function CreditAll(p: Platform, v: PolicyV5, fees: seq<Fee>, db: Db, deposits: seq<Deposit>, n: nat): Option<Db>
    requires n <= |deposits|
  {
    if n == 0 then Some(db)
    else
      match CreditAll(p, v, fees, db, deposits, n - 1)
      case None => None
      case Some(before) => CreditDeposit(p, v, fees, before, deposits[n - 1])
  }

  lemma {:induction false} CreditFailureStays(p: Platform, v: PolicyV5, fees: seq<Fee>, db: Db, deposits: seq<Deposit>,
                                              i: nat, n: nat)
    requires i <= n <= |deposits| && CreditAll(p, v, fees, db, deposits, i).None?
    ensures CreditAll(p, v, fees, db, deposits, n).None?
  {
    if i < n {
      CreditFailureStays(p, v, fees, db, deposits, i, n - 1);
    }
  }

  lemma {:induction false} FeesGrow(fees: seq<Fee>, id: U64, m: nat, n: nat)
    requires m <= n <= |fees|
    ensures FeesOf(fees, id, m) <= FeesOf(fees, id, n)
  {
    if m < n {
      FeesGrow(fees, id, m, n - 1);
    }
  }

  /** The fee loop, with its overflow check. */
  method NetValue(d: Deposit, fees: seq<Fee>) returns (r: Option<U256>)
    requires !d.refunded
    ensures r == NetOf(d, fees)
  {
    var total: nat := 0;
    var i := 0;
    while i < |fees|
      invariant 0 <= i <= |fees| && total == FeesOf(fees, d.id, i) < TWO_256
    {
      if fees[i].deposit == d.id {
        if total + fees[i].amount >= TWO_256 {
          FeesGrow(fees, d.id, i + 1, |fees|);
          return None;
        }
        total := total + fees[i].amount;
      }
      i := i + 1;
    }
    r := if total > d.amount then None else Some(d.amount - total);
  }

  method ApplyDeposits(p: Platform, v: PolicyV5, fees: seq<Fee>, db: Db, deposits: seq<Deposit>) returns (r: Option<Db>)
    ensures r == CreditAll(p, v, fees, db, deposits, |deposits|)
  {
    var state := db;
    var i := 0;
    while i < |deposits|
      invariant 0 <= i <= |deposits|
      invariant CreditAll(p, v, fees, db, deposits, i) == Some(state)
    {
      var d := deposits[i];
      var next := Some(state);
      if !d.refunded {
        var net := NetValue(d, fees);
        next := if net.None? then None else Place(p, v, state, d, net.value);
      }
      if next.None? {
        CreditFailureStays(p, v, fees, db, deposits, i + 1, |deposits|);
        return None;
      }
      state := next.value;
      i := i + 1;
    }
    r := Some(state);
  }

  /** The net value the first n deposits send to a destination. */
  function Due(p: Platform, v: PolicyV5, fees: seq<Fee>, deposits: seq<Deposit>, to: Destination, n: nat): nat
    requires n <= |deposits|
  {
    if n == 0 then 0
    else
      var d := deposits[n - 1];
      Due(p, v, fees, deposits, to, n - 1) + if to != Nowhere
      && DestinationOf(p, v, fees, d) == to then NetOf(d, fees).value else 0
  }

  lemma CreditDepositExact(p: Platform, v: PolicyV5, fees: seq<Fee>, db: Db, d: Deposit, b: Address, k: U256)
    requires CreditDeposit(p, v, fees, db, d).Some?
    ensures var next, to := CreditDeposit(p, v, fees, db, d).value, DestinationOf(p, v, fees, d);
            && BalanceAt(next.accounts, b) == BalanceAt(db.accounts, b) + Hit(to == Balance(b), NetOf(d, fees).value)
            && SlotValue(next.accounts, b, k)
                == SlotValue(db.accounts, b, k) + Hit(to == Slot(b, k), NetOf(d, fees).value)
  {
    var net := NetOf(d, fees).value;
    if net > 0 {
      if d.asset == 0 {
        CreditExact(p, db, Credit(Native, d.beneficiary, net), b, k);
      } else {
        var bound := BoundToken(v, d.asset).value;
        AddToSlotExact(db, bound.token, MappingSlot(p, d.beneficiary, bound.balanceSlot), net, b, k);
      }
    }
  }

  /** Every balance and every slot grows by exactly the net value of the deposits sent there. */
  lemma {:induction false} DepositsExact(p: Platform, v: PolicyV5, fees: seq<Fee>, db: Db, deposits: seq<Deposit>,
                                         n: nat, b: Address, k: U256)
    requires n <= |deposits| && CreditAll(p, v, fees, db, deposits, n).Some?
    ensures var next := CreditAll(p, v, fees, db, deposits, n).value;
            && BalanceAt(next.accounts, b) == BalanceAt(db.accounts, b) + Due(p, v, fees, deposits, Balance(b), n)
            && SlotValue(next.accounts, b, k) == SlotValue(db.accounts, b, k) + Due(p, v, fees, deposits, Slot(b, k), n)
  {
    if n > 0 {
      DepositsExact(p, v, fees, db, deposits, n - 1, b, k);
      CreditDepositExact(p, v, fees, CreditAll(p, v, fees, db, deposits, n - 1).value, deposits[n - 1], b, k);
    }
  }

  // ----- Conservation -----

  /** The fees of the receipts that name one of the deposits. */
  function FeesFor(fees: seq<Fee>, ids: set<U64>): nat
  {
    if fees == [] then 0 else (if fees[0].deposit in ids then fees[0].amount else 0) + FeesFor(fees[1..], ids)
  }

  lemma {:induction false} FeesForLast(fees: seq<Fee>, ids: set<U64>, n: nat)
    requires 0 < n <= |fees|
    ensures FeesFor(fees[..n], ids)
         == FeesFor(fees[..n - 1], ids) + if fees[n - 1].deposit in ids then fees[n - 1].amount else 0
    decreases |fees|
  {
    if n > 1 {
      FeesForLast(fees[1..], ids, n - 1);
      assert fees[..n][1..] == fees[1..][..n - 1] && fees[..n - 1][1..] == fees[1..][..n - 2];
    } else {
      assert fees[..1][1..] == [];
    }
  }

  lemma {:induction false} OneMoreDeposit(fees: seq<Fee>, ids: set<U64>, id: U64, n: nat)
    requires n <= |fees| && id !in ids
    ensures FeesFor(fees[..n], ids + {id}) == FeesFor(fees[..n], ids) + FeesOf(fees, id, n)
  {
    if n == 0 {
      assert fees[..0] == [];
    } else {
      OneMoreDeposit(fees, ids, id, n - 1);
      FeesForLast(fees, ids, n);
      FeesForLast(fees, ids + {id}, n);
    }
  }

  /** The deposits among the first n that are not refunded. */
  function Live(deposits: seq<Deposit>, n: nat): set<U64>
    requires n <= |deposits|
  {
    set i | 0 <= i < n && !deposits[i].refunded :: deposits[i].id
  }

  function Gross(deposits: seq<Deposit>, n: nat): nat
    requires n <= |deposits|
  {
    if n == 0 then 0 else Gross(deposits, n - 1) + if deposits[n - 1].refunded then 0 else deposits[n - 1].amount
  }

  function Net(fees: seq<Fee>, deposits: seq<Deposit>, n: nat): nat
    requires n <= |deposits|
  {
    if n == 0 then 0
    else Net(fees, deposits, n - 1)
         + match NetOf(deposits[n - 1], fees)
           case Some(net) => net
           case None => 0
  }

  lemma LiveGrows(deposits: seq<Deposit>, n: nat)
    requires 0 < n <= |deposits| && !deposits[n - 1].refunded
    requires forall i, j :: 0 <= i < j < |deposits| ==> deposits[i].id != deposits[j].id
    ensures Live(deposits, n) == Live(deposits, n - 1) + {deposits[n - 1].id}
            && deposits[n - 1].id !in Live(deposits, n - 1)
  {
  }

  /** What the deposits that are not refunded bring in is credited or paid as the fees that name them, each fee once. */
  lemma {:induction false} DepositsConserve(p: Platform, v: PolicyV5, fees: seq<Fee>, db: Db, deposits: seq<Deposit>,
                                            n: nat)
    requires n <= |deposits| && CreditAll(p, v, fees, db, deposits, n).Some?
    requires forall i, j :: 0 <= i < j < |deposits| ==> deposits[i].id != deposits[j].id
    ensures Net(fees, deposits, n) + FeesFor(fees, Live(deposits, n)) == Gross(deposits, n)
  {
    if n == 0 {
      assert Live(deposits, 0) == {};
      NoFees(fees);
    } else {
      DepositsConserve(p, v, fees, db, deposits, n - 1);
      var d := deposits[n - 1];
      if d.refunded {
        assert forall i :: 0 <= i < n && !deposits[i].refunded ==> i < n - 1;
        assert Live(deposits, n) == Live(deposits, n - 1);
      } else {
        LiveGrows(deposits, n);
        OneMoreDeposit(fees, Live(deposits, n - 1), d.id, |fees|);
        assert fees[..|fees|] == fees;
      }
    }
  }

  lemma {:induction false} NoFees(fees: seq<Fee>)
    ensures FeesFor(fees, {}) == 0
    decreases |fees|
  {
    if fees != [] {
      NoFees(fees[1..]);
    }
  }

  // ----- What the writes keep -----

  /** A write that touches no code and leaves the state inside its envelope. */
  ghost predicate SafeWrite(before: Db, after: Db)
  {
    SameButValues(before, after) && (Enclosed(before) ==> Enclosed(after))
  }

  lemma SafeWritesCompose(a: Db, b: Db, c: Db)
    requires SafeWrite(a, b) && SafeWrite(b, c)
    ensures SafeWrite(a, c)
  {
  }

  lemma WriteSlotSafe(db: Db, a: Address, slot: U256, value: U256)
    requires WriteSlot(db, a, slot, value).Some?
    ensures SafeWrite(db, WriteSlot(db, a, slot, value).value)
  {
    var next := WriteSlot(db, a, slot, value).value;
    WriteSlotExact(db, a, slot, value, a, slot);
    if Enclosed(db) {
      var record := next.accounts[a];
      forall k | k in record.storage
        ensures record.storage[k] != 0 && SlotAllowed(next, a, k)
      {
        assert k == slot || k in db.accounts[a].storage;
      }
      assert !record.HasZeroSlot() && AccountAllowed(next, a) by {
        assert AccountAllowed(db, a) && !db.accounts[a].HasZeroSlot();
      }
    }
  }

  lemma {:induction false} MirrorsSafe(db: Db, values: map<U256, U256>, mirrors: seq<Mirror>, bindings: seq<Import>,
                                       n: nat)
    requires |mirrors| == |bindings| && n <= |mirrors| && MirrorAll(db, values, mirrors, bindings, n).Some?
    ensures SafeWrite(db, MirrorAll(db, values, mirrors, bindings, n).value)
  {
    if n > 0 {
      MirrorsSafe(db, values, mirrors, bindings, n - 1);
      var before, m := MirrorAll(db, values, mirrors, bindings, n - 1).value, mirrors[n - 1];
      WriteSlotSafe(before, m.contract, m.slot, values[m.sourceKey]);
      SafeWritesCompose(db, before, MirrorAll(db, values, mirrors, bindings, n).value);
    }
  }

  lemma ImportSafe(v: PolicyV5, l1: Option<L1Import>, db: Db)
    requires Imported(v, l1, db).Some?
    ensures SafeWrite(db, Imported(v, l1, db).value)
  {
    if l1.Some? {
      var bindings := AdapterBindings(v.imports, l1.value.adapter, l1.value.version, l1.value.source);
      MirrorsSafe(db, l1.value.values, l1.value.mirrors, bindings, |bindings|);
    }
  }

  lemma NativeSafe(p: Platform, db: Db, c: Credit)
    requires c.asset == Native && CreditOne(p, db, c).Some?
    ensures SafeWrite(db, CreditOne(p, db, c).value)
    ensures NoEmptyAccounts(db.accounts) ==> NoEmptyAccounts(CreditOne(p, db, c).value.accounts)
  {
    var next := CreditOne(p, db, c).value;
    CreditKeeps(p, db, c);
    if Enclosed(db) {
      assert !next.accounts[c.recipient].HasZeroSlot();
    }
  }

  lemma TokenSafe(db: Db, a: Address, slot: U256, amount: U256)
    requires amount > 0 && AddToSlot(db, a, slot, amount).Some?
    ensures SafeWrite(db, AddToSlot(db, a, slot, amount).value)
    ensures NoEmptyAccounts(db.accounts) ==> NoEmptyAccounts(AddToSlot(db, a, slot, amount).value.accounts)
  {
    WriteSlotSafe(db, a, slot, SlotValue(db.accounts, a, slot) + amount);
    var next := AddToSlot(db, a, slot, amount).value;
    assert slot in next.accounts[a].storage;
  }

  lemma CreditDepositSafe(p: Platform, v: PolicyV5, fees: seq<Fee>, db: Db, d: Deposit)
    requires CreditDeposit(p, v, fees, db, d).Some?
    ensures var next := CreditDeposit(p, v, fees, db, d).value;
            SafeWrite(db, next) && (NoEmptyAccounts(db.accounts) ==> NoEmptyAccounts(next.accounts))
  {
    var net := NetOf(d, fees).value;
    if net > 0 {
      if d.asset == 0 {
        NativeSafe(p, db, Credit(Native, d.beneficiary, net));
      } else {
        var bound := BoundToken(v, d.asset).value;
        TokenSafe(db, bound.token, MappingSlot(p, d.beneficiary, bound.balanceSlot), net);
      }
    }
  }

  lemma {:induction false} DepositsSafe(p: Platform, v: PolicyV5, fees: seq<Fee>, db: Db, deposits: seq<Deposit>,
                                        n: nat)
    requires n <= |deposits| && CreditAll(p, v, fees, db, deposits, n).Some?
    ensures var next := CreditAll(p, v, fees, db, deposits, n).value;
            SafeWrite(db, next) && (NoEmptyAccounts(db.accounts) ==> NoEmptyAccounts(next.accounts))
  {
    if n > 0 {
      DepositsSafe(p, v, fees, db, deposits, n - 1);
      var before := CreditAll(p, v, fees, db, deposits, n - 1).value;
      CreditDepositSafe(p, v, fees, before, deposits[n - 1]);
      SafeWritesCompose(db, before, CreditAll(p, v, fees, db, deposits, n).value);
    }
  }

  // ----- Namespaces -----

  ghost predicate Resident(accounts: Accounts, a: Address, k: U256)
  {
    a in accounts && k in accounts[a].storage
  }

  lemma {:induction false} MirroredOrResident(db: Db, values: map<U256, U256>, mirrors: seq<Mirror>,
                                              bindings: seq<Import>, n: nat, a: Address, k: U256)
    requires |mirrors| == |bindings| && n <= |mirrors| && MirrorAll(db, values, mirrors, bindings, n).Some?
    requires Resident(MirrorAll(db, values, mirrors, bindings, n).value.accounts, a, k)
    ensures Resident(db.accounts, a, k) || exists i :: 0 <= i < n && bindings[i].contract == a && bindings[i].slot == k
  {
    if n > 0 && !(bindings[n - 1].contract == a && bindings[n - 1].slot == k) {
      MirroredOrResident(db, values, mirrors, bindings, n - 1, a, k);
    }
  }

  lemma WritableIsDeclared(v: PolicyV5, a: Address, k: U256)
    requires WritableSlot(v.storage, a, k)
    ensures InNamespace(v.storage, a, k)
  {
    var i :| 0 <= i < |v.storage| && v.storage[i].writable && Covers(v.storage[i], a, k);
  }

  /** Imports write declared slots only. */
  lemma ImportNamespaces(v: PolicyV5, l1: Option<L1Import>, db: Db)
    requires ImportsOk(v) && NamespacesCover(v.storage, db.accounts) && Imported(v, l1, db).Some?
    ensures NamespacesCover(v.storage, Imported(v, l1, db).value.accounts)
  {
    if l1.Some? {
      var bindings := AdapterBindings(v.imports, l1.value.adapter, l1.value.version, l1.value.source);
      var next := Imported(v, l1, db).value;
      forall a, k | a in next.accounts && k in next.accounts[a].storage
        ensures InNamespace(v.storage, a, k)
      {
        assert Resident(next.accounts, a, k);
        MirroredOrResident(db, l1.value.values, l1.value.mirrors, bindings, |bindings|, a, k);
        if !Resident(db.accounts, a, k) {
          var i :| 0 <= i < |bindings| && bindings[i].contract == a && bindings[i].slot == k;
          assert bindings[i] in v.imports;
          WritableIsDeclared(v, a, k);
        }
      }
    }
  }

  /** Token credits land in declared namespaces. */
  ghost predicate CreditsDeclared(p: Platform, v: PolicyV5, fees: seq<Fee>, deposits: seq<Deposit>)
  {
    forall i :: 0 <= i < |deposits| ==>
      var to := DestinationOf(p, v, fees, deposits[i]);
      to.Slot? ==> InNamespace(v.storage, to.token, to.slot)
  }

  lemma {:induction false} DueCounts(p: Platform, v: PolicyV5, fees: seq<Fee>, deposits: seq<Deposit>, to: Destination,
                                     n: nat)
    requires n <= |deposits| && to != Nowhere
    ensures Due(p, v, fees, deposits, to, n) > 0
            <==> exists i :: 0 <= i < n && DestinationOf(p, v, fees, deposits[i]) == to
  {
    if n > 0 {
      DueCounts(p, v, fees, deposits, to, n - 1);
    }
  }

  lemma {:induction false} CreditedOrResident(p: Platform, v: PolicyV5, fees: seq<Fee>, db: Db, deposits: seq<Deposit>,
                                              n: nat, a: Address, k: U256)
    requires n <= |deposits| && CreditAll(p, v, fees, db, deposits, n).Some?
    requires Resident(CreditAll(p, v, fees, db, deposits, n).value.accounts, a, k)
    ensures Resident(db.accounts, a, k)
            || exists i :: 0 <= i < n && DestinationOf(p, v, fees, deposits[i]) == Slot(a, k)
  {
    if n > 0 && DestinationOf(p, v, fees, deposits[n - 1]) != Slot(a, k) {
      CreditedOrResident(p, v, fees, db, deposits, n - 1, a, k);
    }
  }

  /** After the credits all storage is again in declared namespaces exactly when every token credit landed in one. */
  lemma DepositNamespaces(p: Platform, v: PolicyV5, fees: seq<Fee>, db: Db, deposits: seq<Deposit>)
    requires NamespacesCover(v.storage, db.accounts) && CreditAll(p, v, fees, db, deposits, |deposits|).Some?
    ensures NamespacesCover(v.storage, CreditAll(p, v, fees, db, deposits, |deposits|).value.accounts)
       <==> CreditsDeclared(p, v, fees, deposits)
  {
    var next, n := CreditAll(p, v, fees, db, deposits, |deposits|).value, |deposits|;
    forall i | 0 <= i < n && DestinationOf(p, v, fees, deposits[i]).Slot?
      ensures var to := DestinationOf(p, v, fees, deposits[i]); Resident(next.accounts, to.token, to.slot)
    {
      var to := DestinationOf(p, v, fees, deposits[i]);
      DueCounts(p, v, fees, deposits, to, n);
      DepositsExact(p, v, fees, db, deposits, n, to.token, to.slot);
    }
    if CreditsDeclared(p, v, fees, deposits) {
      forall a, k | a in next.accounts && k in next.accounts[a].storage
        ensures InNamespace(v.storage, a, k)
      {
        assert Resident(next.accounts, a, k);
        CreditedOrResident(p, v, fees, db, deposits, n, a, k);
      }
    }
  }

  // ----- The opening state -----

  /** The state the policy is built over: the import, then the deposits. */
  function Written(p: Platform, v: PolicyV5, l1: Option<L1Import>, fees: seq<Fee>, deposits: seq<Deposit>,
                   db: Db): Option<Db>
  {
    match Imported(v, l1, db)
    case None => None
    case Some(mid) => CreditAll(p, v, fees, mid, deposits, |deposits|)
  }

  lemma SameCodeSameChecks(p: Platform, pins: map<Address, B256>, before: Db, after: Db)
    requires SameButValues(before, after) && PinsHold(p, pins, before.accounts) && NoOtherCode(pins, before.accounts)
    ensures PinsHold(p, pins, after.accounts) && NoOtherCode(pins, after.accounts)
  {
    forall a | a in pins
      ensures a in after.accounts && CodeHash(p, after.accounts[a]) == pins[a]
    {
      assert CodeAt(after.accounts, a) == CodeAt(before.accounts, a);
    }
    forall a | a in after.accounts && after.accounts[a].code != []
      ensures a in pins
    {
      assert CodeAt(after.accounts, a) == CodeAt(before.accounts, a);
    }
  }

  /** Over a state the constructor accepts, import and credits leave a state it accepts again exactly when every token
      credit lands in a declared namespace. */
  lemma WrittenStateOk(p: Platform, v: PolicyV5, l1: Option<L1Import>, fees: seq<Fee>, deposits: seq<Deposit>, db: Db)
    requires StateOk(p, v, db.accounts) && ImportsOk(v) && Written(p, v, l1, fees, deposits, db).Some?
    ensures StateOk(p, v, Written(p, v, l1, fees, deposits, db).value.accounts)
            <==> CreditsDeclared(p, v, fees, deposits)
  {
    var mid := Imported(v, l1, db).value;
    ImportSafe(v, l1, db);
    ImportNamespaces(v, l1, db);
    DepositsSafe(p, v, fees, mid, deposits, |deposits|);
    DepositNamespaces(p, v, fees, mid, deposits);
    var pins := PinMap(v.code, |v.code|);
    SameCodeSameChecks(p, pins, db, mid);
    SameCodeSameChecks(p, pins, mid, Written(p, v, l1, fees, deposits, db).value);
  }

  lemma WrittenSafe(p: Platform, v: PolicyV5, l1: Option<L1Import>, fees: seq<Fee>, deposits: seq<Deposit>, db: Db)
    requires Written(p, v, l1, fees, deposits, db).Some?
    ensures SafeWrite(db, Written(p, v, l1, fees, deposits, db).value)
  {
    var mid := Imported(v, l1, db).value;
    ImportSafe(v, l1, db);
    DepositsSafe(p, v, fees, mid, deposits, |deposits|);
    SafeWritesCompose(db, mid, Written(p, v, l1, fees, deposits, db).value);
  }

  // ----- Empty accounts -----

  /** Every account has a nonce, a balance or code, whatever its storage. */
  ghost predicate AllInformed(accounts: Accounts)
  {
    forall a {:trigger accounts[a]} :: a in accounts ==>
      accounts[a].nonce != 0 || accounts[a].balance != 0 || accounts[a].code != []
  }

  /** A present account without nonce, balance and code is refused by the witness check. */
  lemma OpenedInformed(emptyRoot: B256, listed: seq<AccountWitness>, db: Db)
    requires WellFormed(emptyRoot, listed, |listed|) && OpenedAs(listed, db)
    ensures AllInformed(db.accounts)
  {
    forall a | a in db.accounts
      ensures db.accounts[a].nonce != 0 || db.accounts[a].balance != 0 || db.accounts[a].code != []
    {
      assert a in db.accessAccounts.value;
      var i :| 0 <= i < |listed| && listed[i].address == a;
      assert AccountRepresented(db.accounts, db.accessStorage.value, listed[i]);
      assert AccountOk(emptyRoot, listed[i]);
    }
  }

  /** Mirror writes touch storage only. */
  lemma {:induction false} MirrorsKeepInformed(db: Db, values: map<U256, U256>, mirrors: seq<Mirror>,
                                               bindings: seq<Import>, n: nat)
    requires |mirrors| == |bindings| && n <= |mirrors| && MirrorAll(db, values, mirrors, bindings, n).Some?
    requires AllInformed(db.accounts)
    ensures AllInformed(MirrorAll(db, values, mirrors, bindings, n).value.accounts)
  {
    if n > 0 {
      MirrorsKeepInformed(db, values, mirrors, bindings, n - 1);
    }
  }

  /** No import empties an account of an opened state. */
  lemma ImportKeepsNonEmpty(emptyRoot: B256, listed: seq<AccountWitness>, v: PolicyV5, l1: Option<L1Import>, db: Db)
    requires WellFormed(emptyRoot, listed, |listed|) && OpenedAs(listed, db) && Imported(v, l1, db).Some?
    ensures NoEmptyAccounts(Imported(v, l1, db).value.accounts)
  {
    OpenedInformed(emptyRoot, listed, db);
    if l1.Some? {
      var bindings := AdapterBindings(v.imports, l1.value.adapter, l1.value.version, l1.value.source);
      MirrorsKeepInformed(db, l1.value.values, l1.value.mirrors, bindings, |bindings|);
    }
  }

  /** Import and credits leave an opened state contained. */
  lemma WrittenIsContained(p: Platform, emptyRoot: B256, listed: seq<AccountWitness>, v: PolicyV5,
                           l1: Option<L1Import>, fees: seq<Fee>, deposits: seq<Deposit>, db: Db)
    requires WellFormed(emptyRoot, listed, |listed|) && OpenedAs(listed, db)
    requires Written(p, v, l1, fees, deposits, db).Some?
    ensures Contained(Written(p, v, l1, fees, deposits, db).value)
  {
    AcceptedIsContained(emptyRoot, listed, db);
    WrittenSafe(p, v, l1, fees, deposits, db);
    ImportKeepsNonEmpty(emptyRoot, listed, v, l1, db);
    DepositsSafe(p, v, fees, Imported(v, l1, db).value, deposits, |deposits|);
  }
}
