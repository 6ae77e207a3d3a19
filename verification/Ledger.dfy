/** Double-entry ledger: all-or-nothing escrow lock, release and trade settlement. */
module Ledgers {
  import opened PriceTime

  datatype Kind = Checking | Escrow

  datatype Account = Account(owner: string, currency: string, kind: Kind)

  datatype EntryType = Debit | Credit

  datatype Entry = Entry(transaction: nat, account: Account, entryType: EntryType, amount: int, currency: string)

  datatype Transaction = Transaction(amount: int, currency: string, source: Account, dest: Account)

  /** The tables; a transaction's id is its row. Balances are exact multiples of the smallest unit. */
  datatype Ledger = Ledger(balances: map<Account, int>, transactions: seq<Transaction>, entries: seq<Entry>)

  datatype Error = NoAccount(account: Account) | Insufficient | Inconsistent | BuyerShort | SellerShort | Constraint

  datatype Result = Ok | Err(error: Error)

  const SYSTEM := "00000000-0000-0000-0000-000000000000"

  /** The symbol without the first USDT in it. */
  function Asset(symbol: string): string {
    if |symbol| < 4 then symbol
    else if symbol[..4] == "USDT" then symbol[4..]
    else [symbol[0]] + Asset(symbol[1..])
  }

  function Currency(symbol: string, side: Side): string {
    if side.Buy? then "USD" else Asset(symbol)
  }

  /** What an order of this size ties up. */
  function Amount(side: Side, price: int, quantity: int): int {
    if side.Buy? then price * quantity else quantity
  }

  // ----- specification -------------------------------------------------------------------

  /** One transaction with its two legs. */
  function Post(l: Ledger, source: Account, dest: Account, amount: int, currency: string): Ledger
    requires source in l.balances && dest in l.balances
  {
    var debited := l.balances[source := l.balances[source] - amount];
    Ledger(debited[dest := debited[dest] + amount],
           l.transactions + [Transaction(amount, currency, source, dest)],
           l.entries + [Entry(|l.transactions|, source, Debit, amount, currency),
                        Entry(|l.transactions|, dest, Credit, amount, currency)])
  }

  /** Posting under the schema's checks: positive legs, no overdraft. */
  function TryPost(l: Ledger, source: Account, dest: Account, amount: int, currency: string): (Ledger, Result)
    requires source in l.balances && dest in l.balances
  {
    if amount <= 0 || l.balances[source] < amount then (l, Err(Constraint))
    else (Post(l, source, dest, amount, currency), Ok)
  }

  function Lock(l: Ledger, userId: string, symbol: string, side: Side, price: int, quantity: int): (Ledger, Result) {
    var currency, amount := Currency(symbol, side), Amount(side, price, quantity);
    var checking, escrow := Account(userId, currency, Checking), Account(userId, currency, Escrow);
    if checking !in l.balances then (l, Err(NoAccount(checking)))
    else if l.balances[checking] < amount then (l, Err(Insufficient))
    else if escrow !in l.balances then (l, Err(NoAccount(escrow)))
    else TryPost(l, checking, escrow, amount, currency)
  }

  function Release(l: Ledger, userId: string, symbol: string, side: Side, price: int, quantity: int): (Ledger, Result) {
    var currency, amount := Currency(symbol, side), Amount(side, price, quantity);
    var checking, escrow := Account(userId, currency, Checking), Account(userId, currency, Escrow);
    if checking !in l.balances then (l, Err(NoAccount(checking)))
    else if escrow !in l.balances then (l, Err(NoAccount(escrow)))
    else if l.balances[escrow] < amount then (l, Err(Inconsistent))
    else TryPost(l, escrow, checking, amount, currency)
  }

  function BuyerCash(buyerId: string): Account {
    Account(buyerId, "USD", if buyerId == SYSTEM then Checking else Escrow)
  }

  function SellerCash(sellerId: string): Account {
    Account(sellerId, "USD", Checking)
  }

  function SellerAsset(sellerId: string, symbol: string): Account {
    Account(sellerId, Asset(symbol), if sellerId == SYSTEM then Checking else Escrow)
  }

  function BuyerAsset(buyerId: string, symbol: string): Account {
    Account(buyerId, Asset(symbol), Checking)
  }

  function Settle(l: Ledger, buyerId: string, sellerId: string, symbol: string, price: int, quantity: int): (Ledger, Result) {
    var from, cashTo := BuyerCash(buyerId), SellerCash(sellerId);
    var assetFrom, assetTo := SellerAsset(sellerId, symbol), BuyerAsset(buyerId, symbol);
    if from !in l.balances then (l, Err(NoAccount(from)))
    else if cashTo !in l.balances then (l, Err(NoAccount(cashTo)))
    else if assetFrom !in l.balances then (l, Err(NoAccount(assetFrom)))
    else if assetTo !in l.balances then (l, Err(NoAccount(assetTo)))
    else if l.balances[from] < price * quantity then (l, Err(BuyerShort))
    else if l.balances[assetFrom] < quantity then (l, Err(SellerShort))
    else
      var (l1, r1) := TryPost(l, from, cashTo, price * quantity, "USD");
      if r1.Err? then (l, r1)
      else
        var (l2, r2) := TryPost(l1, assetFrom, assetTo, quantity, Asset(symbol));
        if r2.Err? then (l, r2) else (l2, Ok)
  }

  // ----- the engine ----------------------------------------------------------------------

  class LedgerEngine {
    var balances: map<Account, int>
    var transactions: seq<Transaction>
    var entries: seq<Entry>

    constructor (balances: map<Account, int>)
      ensures Tables() == Ledger(balances, [], [])
    {
      this.balances, transactions, entries := balances, [], [];
    }

    ghost function Tables(): Ledger
      reads this
    {
      Ledger(balances, transactions, entries)
    }

    ghost predicate NoOverdraft()
      reads this
    {
      forall a | a in balances :: balances[a] >= 0
    }

    /** UPDATE accounts SET balance = balance + delta, refused by the non-negative check. */
    method UpdateBalance(account: Account, delta: int) returns (ok: bool)
      requires account in balances
      modifies `balances
      ensures ok == (old(balances)[account] + delta >= 0)
      ensures balances == if ok then old(balances)[account := old(balances)[account] + delta] else old(balances)
    {
      ok := balances[account] + delta >= 0;
      if ok { balances := balances[account := balances[account] + delta]; }
    }

    /** INSERT INTO ledger_entries, refused by the positive-amount check. */
    method InsertEntry(entry: Entry) returns (ok: bool)
      modifies `entries
      ensures ok == (entry.amount > 0)
      ensures entries == if ok then old(entries) + [entry] else old(entries)
    {
      ok := entry.amount > 0;
      if ok { entries := entries + [entry]; }
    }

    /** Header, debit leg, credit leg; stops at the first statement the schema refuses. */
    method Transfer(source: Account, dest: Account, amount: int, currency: string) returns (ok: bool)
      requires source in balances && dest in balances && NoOverdraft()
      modifies this
      ensures (if ok then Ok else Err(Constraint)) == TryPost(old(Tables()), source, dest, amount, currency).1
      ensures ok ==> Tables() == TryPost(old(Tables()), source, dest, amount, currency).0
      ensures ok ==> NoOverdraft()
    {
      var id := |transactions|;
      transactions := transactions + [Transaction(amount, currency, source, dest)];
      ok := UpdateBalance(source, -amount);
      if !ok { return; }
      ok := InsertEntry(Entry(id, source, Debit, amount, currency));
      if !ok { return; }
      ok := UpdateBalance(dest, amount);
      if !ok { return; }
      ok := InsertEntry(Entry(id, dest, Credit, amount, currency));
      assert old(entries) + [Entry(id, source, Debit, amount, currency)] + [Entry(id, dest, Credit, amount, currency)]
          == old(entries) + [Entry(id, source, Debit, amount, currency), Entry(id, dest, Credit, amount, currency)];
    }

    method LockEscrow(userId: string, symbol: string, side: Side, price: int, quantity: int) returns (r: Result)
      requires NoOverdraft()
      modifies this
      ensures (Tables(), r) == Lock(old(Tables()), userId, symbol, side, price, quantity)
      ensures r.Err? ==> Tables() == old(Tables())
      ensures NoOverdraft()
    {
      var isBuy := side == Buy;
      var currency := if isBuy then "USD" else Asset(symbol);
      var amount := if isBuy then price * quantity else quantity;
      var checking, escrow := Account(userId, currency, Checking), Account(userId, currency, Escrow);
      if checking !in balances { return Err(NoAccount(checking)); }
      if balances[checking] < amount { return Err(Insufficient); }
      if escrow !in balances { return Err(NoAccount(escrow)); }
      var saved := (balances, transactions, entries);
      var ok := Transfer(checking, escrow, amount, currency);
      r := if ok then Ok else Err(Constraint);
      if !ok { balances, transactions, entries := saved.0, saved.1, saved.2; }
    }

    method ReleaseEscrow(userId: string, symbol: string, side: Side, price: int, quantity: int) returns (r: Result)
      requires NoOverdraft()
      modifies this
      ensures (Tables(), r) == Release(old(Tables()), userId, symbol, side, price, quantity)
      ensures r.Err? ==> Tables() == old(Tables())
      ensures NoOverdraft()
    {
      var isBuy := side == Buy;
      var currency := if isBuy then "USD" else Asset(symbol);
      var amount := if isBuy then price * quantity else quantity;
      var checking, escrow := Account(userId, currency, Checking), Account(userId, currency, Escrow);
      if checking !in balances { return Err(NoAccount(checking)); }
      if escrow !in balances { return Err(NoAccount(escrow)); }
      if balances[escrow] < amount { return Err(Inconsistent); }
      var saved := (balances, transactions, entries);
      var ok := Transfer(escrow, checking, amount, currency);
      r := if ok then Ok else Err(Constraint);
      if !ok { balances, transactions, entries := saved.0, saved.1, saved.2; }
    }

    method SettleTrade(buyerId: string, sellerId: string, symbol: string, price: int, quantity: int) returns (r: Result)
      requires NoOverdraft()
      modifies this
      ensures (Tables(), r) == Settle(old(Tables()), buyerId, sellerId, symbol, price, quantity)
      ensures r.Err? ==> Tables() == old(Tables())
      ensures NoOverdraft()
    {
      var asset, cashAmount := Asset(symbol), price * quantity;
      var buyerIsSystem, sellerIsSystem := buyerId == SYSTEM, sellerId == SYSTEM;
      var buyerCash := Account(buyerId, "USD", if buyerIsSystem then Checking else Escrow);
      var sellerCash := Account(sellerId, "USD", Checking);
      var sellerAsset := Account(sellerId, asset, if sellerIsSystem then Checking else Escrow);
      var buyerAsset := Account(buyerId, asset, Checking);
      if buyerCash !in balances { return Err(NoAccount(buyerCash)); }
      if sellerCash !in balances { return Err(NoAccount(sellerCash)); }
      if sellerAsset !in balances { return Err(NoAccount(sellerAsset)); }
      if buyerAsset !in balances { return Err(NoAccount(buyerAsset)); }
      if balances[buyerCash] < cashAmount { return Err(BuyerShort); }
      if balances[sellerAsset] < quantity { return Err(SellerShort); }
      var saved := (balances, transactions, entries);
      var ok := Transfer(buyerCash, sellerCash, cashAmount, "USD");
      if ok { ok := Transfer(sellerAsset, buyerAsset, quantity, asset); }
      r := if ok then Ok else Err(Constraint);
      if !ok { balances, transactions, entries := saved.0, saved.1, saved.2; }
    }
  }
}
