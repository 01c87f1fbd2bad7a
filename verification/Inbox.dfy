/** System credits applied before the first block of a batch. */
module Inbox {
  import opened Bytes
  import opened State
  import opened StateLaws

  datatype Asset = Native | Erc20(token: Address, balanceSlot: U256, supplySlot: U256)

  datatype Credit = Credit(asset: Asset, recipient: Address, amount: U256)

  /** The storage slot of a mapping entry. */
  function MappingSlot(p: Platform, account: Address, slot: U256): U256
  {
    var digest := p.keccak(AddressWord(account) + U256Word(slot));
    FromBEBound(digest);
    Widths();
    FromBE(digest)
  }

  function WriteSlot(db: Db, a: Address, slot: U256, value: U256): Option<Db>
  {
    if !SlotAllowed(db, a, slot) || a !in db.accounts then None
    else
      var storage := db.accounts[a].storage;
      Some(db.(accounts := db.accounts[a :=
                                       db.accounts[a].(storage := if value == 0 then storage - {slot}
                                                       else storage[slot := value])]))
  }

  /** Add to a slot, refusing undeclared slots and overflow. */
  function AddToSlot(db: Db, a: Address, slot: U256, amount: U256): Option<Db>
  {
    var value := SlotValue(db.accounts, a, slot) + amount;
    if !SlotAllowed(db, a, slot) || value >= TWO_256 then None else WriteSlot(db, a, slot, value)
  }

  function CreditOne(p: Platform, db: Db, c: Credit): Option<Db>
  {
    if c.amount == 0 then None
    else
      match c.asset
      case Native =>
        var record := if c.recipient in db.accounts then db.accounts[c.recipient] else NO_ACCOUNT;
        if !AccountAllowed(db, c.recipient) || record.balance + c.amount >= TWO_256 then None
        else Some(db.(accounts := db.accounts[c.recipient := record.(balance := record.balance + c.amount)]))
      case Erc20(token, balanceSlot, supplySlot) =>
        match AddToSlot(db, token, MappingSlot(p, c.recipient, balanceSlot), c.amount)
        case None => None
        case Some(next) => AddToSlot(next, token, supplySlot, c.amount)
  }

  function ApplyCredits(p: Platform, db: Db, credits: seq<Credit>): Option<Db>
    decreases |credits|
  {
    if credits == [] then Some(db)
    else
      match CreditOne(p, db, credits[0])
      case None => None
      case Some(next) => ApplyCredits(p, next, credits[1..])
  }

  /** Only balances and storage of accounts may differ. */
  ghost predicate SameButValues(before: Db, after: Db)
  {
    && after.(accounts := before.accounts) == before
    && (forall a :: a in before.accounts ==> a in after.accounts)
    && forall a :: CodeAt(after.accounts, a) == CodeAt(before.accounts, a)
  }

  lemma AddToSlotKeeps(db: Db, a: Address, slot: U256, amount: U256)
    requires AddToSlot(db, a, slot, amount).Some?
    ensures SameButValues(db, AddToSlot(db, a, slot, amount).value)
    ensures amount > 0 && Contained(db) ==> Contained(AddToSlot(db, a, slot, amount).value)
  {
    var next := AddToSlot(db, a, slot, amount).value;
    if amount > 0 && Contained(db) {
      var record := next.accounts[a];
      assert record.storage == db.accounts[a].storage[slot := SlotValue(db.accounts, a, slot) + amount];
      forall k | k in record.storage
        ensures record.storage[k] != 0 && SlotAllowed(next, a, k)
      {
        assert k == slot || k in db.accounts[a].storage;
      }
    }
  }

  lemma CreditKeeps(p: Platform, db: Db, c: Credit)
    requires CreditOne(p, db, c).Some?
    ensures SameButValues(db, CreditOne(p, db, c).value)
    ensures Contained(db) ==> Contained(CreditOne(p, db, c).value)
  {
    var next := CreditOne(p, db, c).value;
    match c.asset
    case Native =>
      if Contained(db) {
        var record := next.accounts[c.recipient];
        assert !record.IsEmpty() && !record.HasZeroSlot();
      }
    case Erc20(token, balanceSlot, supplySlot) =>
      var slot := MappingSlot(p, c.recipient, balanceSlot);
      AddToSlotKeeps(db, token, slot, c.amount);
      AddToSlotKeeps(AddToSlot(db, token, slot, c.amount).value, token, supplySlot, c.amount);
  }

  /** Credits never touch code, the envelope, the cache or a latched violation, and keep the state contained. */
  lemma {:induction false} CreditsKeep(p: Platform, db: Db, credits: seq<Credit>)
    requires ApplyCredits(p, db, credits).Some?
    ensures SameButValues(db, ApplyCredits(p, db, credits).value)
    ensures Contained(db) ==> Contained(ApplyCredits(p, db, credits).value)
    decreases |credits|
  {
    if credits != [] {
      CreditKeeps(p, db, credits[0]);
      CreditsKeep(p, CreditOne(p, db, credits[0]).value, credits[1..]);
    }
  }

  function BalanceAt(accounts: Accounts, a: Address): nat
  {
    if a in accounts then accounts[a].balance else 0
  }

  function Hit(at: bool, amount: nat): nat
  {
    if at then amount else 0
  }

  lemma AddToSlotExact(db: Db, a: Address, slot: U256, amount: U256, b: Address, k: U256)
    requires AddToSlot(db, a, slot, amount).Some?
    ensures var next := AddToSlot(db, a, slot, amount).value;
            SlotValue(next.accounts, b, k) == SlotValue(db.accounts, b, k) + Hit(b == a && k == slot, amount)
            && BalanceAt(next.accounts, b) == BalanceAt(db.accounts, b)
  {
  }

  /** A credit adds its amount to the recipient's balance, or to the recipient's token balance and the token's supply,
      and to nothing else. */
  lemma CreditExact(p: Platform, db: Db, c: Credit, b: Address, k: U256)
    requires CreditOne(p, db, c).Some?
    ensures var next := CreditOne(p, db, c).value;
            match c.asset
            case Native =>
              BalanceAt(next.accounts, b) == BalanceAt(db.accounts, b) + Hit(b == c.recipient, c.amount)
              && SlotValue(next.accounts, b, k) == SlotValue(db.accounts, b, k)
            case Erc20(token, balanceSlot, supplySlot) =>
              BalanceAt(next.accounts, b) == BalanceAt(db.accounts, b)
              && SlotValue(next.accounts, b, k) == SlotValue(db.accounts, b, k)
                 + Hit(b == token && k == MappingSlot(p, c.recipient, balanceSlot), c.amount) + Hit(b == token
                         && k == supplySlot, c.amount)
  {
    match c.asset
    case Native =>
    case Erc20(token, balanceSlot, supplySlot) =>
      var slot := MappingSlot(p, c.recipient, balanceSlot);
      AddToSlotExact(db, token, slot, c.amount, b, k);
      AddToSlotExact(AddToSlot(db, token, slot, c.amount).value, token, supplySlot, c.amount, b, k);
  }

  /** A balance or a storage slot. */
  datatype Cell = BalanceCell(account: Address) | SlotCell(contract: Address, slot: U256)

  function ValueAt(accounts: Accounts, cell: Cell): nat
  {
    match cell
    case BalanceCell(a) => BalanceAt(accounts, a)
    case SlotCell(a, k) => SlotValue(accounts, a, k)
  }

  /** What a credit adds to a cell. */
  function Grant(p: Platform, c: Credit, cell: Cell): nat
  {
    match c.asset
    case Native => Hit(cell == BalanceCell(c.recipient), c.amount)
    case Erc20(token, balanceSlot, supplySlot) =>
      Hit(cell == SlotCell(token, MappingSlot(p, c.recipient, balanceSlot)), c.amount)
      + Hit(cell == SlotCell(token, supplySlot), c.amount)
  }

  function Grants(p: Platform, credits: seq<Credit>, cell: Cell): nat
  {
    if credits == [] then 0 else Grant(p, credits[0], cell) + Grants(p, credits[1..], cell)
  }

  /** Every cell grows by exactly what the credits add to it. */
  lemma {:induction false} CreditsExact(p: Platform, db: Db, credits: seq<Credit>, cell: Cell)
    requires ApplyCredits(p, db, credits).Some?
    ensures ValueAt(ApplyCredits(p, db, credits).value.accounts, cell)
         == ValueAt(db.accounts, cell) + Grants(p, credits, cell)
    decreases |credits|
  {
    if credits != [] {
      match cell {
        case BalanceCell(a) => CreditExact(p, db, credits[0], a, 0);
        case SlotCell(a, k) => CreditExact(p, db, credits[0], a, k);
      }
      CreditsExact(p, CreditOne(p, db, credits[0]).value, credits[1..], cell);
    }
  }

  /** A credit is refused exactly when it is zero, its destination is not declared, or a sum leaves 256 bits. */
  lemma CreditAcceptedExactly(p: Platform, db: Db, c: Credit)
    ensures CreditOne(p, db, c).Some? <==>
            c.amount > 0
            && match c.asset
               case Native =>
                 AccountAllowed(db, c.recipient) && BalanceAt(db.accounts, c.recipient) + c.amount < TWO_256
               case Erc20(token, balanceSlot, supplySlot) =>
                 var slot := MappingSlot(p, c.recipient, balanceSlot);
                 && token in db.accounts && SlotAllowed(db, token, slot) && SlotAllowed(db, token, supplySlot)
                 && (slot == supplySlot ==> SlotValue(db.accounts, token, slot) + 2 * c.amount < TWO_256)
                 && (slot != supplySlot ==> SlotValue(db.accounts, token, slot) + c.amount < TWO_256
                                            && SlotValue(db.accounts, token, supplySlot) + c.amount < TWO_256)
  {
    match c.asset
    case Native =>
    case Erc20(token, balanceSlot, supplySlot) =>
      var slot := MappingSlot(p, c.recipient, balanceSlot);
      if AddToSlot(db, token, slot, c.amount).Some? {
        AddToSlotExact(db, token, slot, c.amount, token, supplySlot);
      }
  }

  /** Two mapping entries share a slot only when they are the same entry or their preimages collide. */
  lemma MappingSlotBinds(p: Platform, a: Address, j: U256, b: Address, k: U256)
    requires MappingSlot(p, a, j) == MappingSlot(p, b, k)
    ensures (a == b && j == k) || Clash(p.keccak, AddressWord(a) + U256Word(j), AddressWord(b) + U256Word(k))
  {
    var x, y := AddressWord(a) + U256Word(j), AddressWord(b) + U256Word(k);
    EncodeDecode(p.keccak(x), 32);
    EncodeDecode(p.keccak(y), 32);
    assert Zeros(0) == [] && p.keccak(x) == [] + p.keccak(x) && p.keccak(y) == [] + p.keccak(y);
    if x == y {
      assert x[..32] == AddressWord(a) && y[..32] == AddressWord(b) && x[32..] == U256Word(j) && y[32..] == U256Word(k);
      AddressWordInjective(a, b);
      U256WordInjective(j, k);
    }
  }
}
