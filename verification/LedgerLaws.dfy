/** What every run of ledger operations keeps, rolled-back ones included. */
module LedgerLaws {
  import opened PriceTime
  import opened Ledgers

  datatype Op =
    | LockOp(userId: string, symbol: string, side: Side, price: int, quantity: int)
    | ReleaseOp(userId: string, symbol: string, side: Side, price: int, quantity: int)
    | SettleOp(buyerId: string, sellerId: string, symbol: string, price: int, quantity: int)

  function Exec(l: Ledger, op: Op): (Ledger, Result) {
    match op
    case LockOp(u, s, side, p, q) => Lock(l, u, s, side, p, q)
    case ReleaseOp(u, s, side, p, q) => Release(l, u, s, side, p, q)
    case SettleOp(b, s, sym, p, q) => Settle(l, b, s, sym, p, q)
  }

  function RunOps(l: Ledger, ops: seq<Op>): Ledger {
    if ops == [] then l else Exec(RunOps(l, ops[..|ops| - 1]), ops[|ops| - 1]).0
  }

  // ----- what the entries say ------------------------------------------------------------

  function Signed(e: Entry): int {
    if e.entryType.Credit? then e.amount else -e.amount
  }

  /** Credits minus debits of an account. */
  function Movement(entries: seq<Entry>, a: Account): int {
    if entries == [] then 0
    else Movement(entries[..|entries| - 1], a)
         + if entries[|entries| - 1].account == a then Signed(entries[|entries| - 1]) else 0
  }

  /** Credits minus debits of a transaction. */
  function Imbalance(entries: seq<Entry>, tx: nat): int {
    if entries == [] then 0
    else Imbalance(entries[..|entries| - 1], tx)
         + if entries[|entries| - 1].transaction == tx then Signed(entries[|entries| - 1]) else 0
  }

  /** Total balance in a currency over the listed accounts. */
  function Total(balances: map<Account, int>, rows: seq<Account>, currency: string): int {
    if rows == [] then 0
    else (if rows[0] in balances && rows[0].currency == currency then balances[rows[0]] else 0)
         + Total(balances, rows[1..], currency)
  }

  /** Each account of the table is listed once. */
  ghost predicate Lists(rows: seq<Account>, accounts: set<Account>) {
    && (forall a :: a in accounts <==> a in rows)
    && (forall i, j | 0 <= i < j < |rows| :: rows[i] != rows[j])
  }

  /** Balances follow from the opening balances and the entries; nothing is overdrawn or one-legged. */
  ghost predicate Consistent(opening: map<Account, int>, l: Ledger) {
    && l.balances.Keys == opening.Keys
    && (forall a | a in opening :: l.balances[a] >= 0)
    && (forall a | a in opening :: l.balances[a] == opening[a] + Movement(l.entries, a))
    && (forall tx: nat :: Imbalance(l.entries, tx) == 0)
    && (forall i | 0 <= i < |l.entries| :: l.entries[i].transaction < |l.transactions| && l.entries[i].amount > 0)
  }

  lemma TwoMore(entries: seq<Entry>, d: Entry, c: Entry)
    ensures forall a :: Movement(entries + [d, c], a) == Movement(entries, a)
                        + (if d.account == a then Signed(d) else 0) + (if c.account == a then Signed(c) else 0)
    ensures forall tx :: Imbalance(entries + [d, c], tx) == Imbalance(entries, tx)
                         + (if d.transaction == tx then Signed(d) else 0) + (if c.transaction == tx then Signed(c) else 0)
  {
    assert (entries + [d, c])[..|entries| + 1] == entries + [d];
    assert (entries + [d])[..|entries|] == entries;
  }

  lemma {:induction false} NoEntryNoImbalance(entries: seq<Entry>, tx: nat)
    requires forall i | 0 <= i < |entries| :: entries[i].transaction != tx
    ensures Imbalance(entries, tx) == 0
  {
    if entries != [] {
      NoEntryNoImbalance(entries[..|entries| - 1], tx);
    }
  }

  lemma PostKeepsConsistent(opening: map<Account, int>, l: Ledger, source: Account, dest: Account, amount: int, currency: string)
    requires Consistent(opening, l) && source in l.balances && dest in l.balances
    requires 0 < amount <= l.balances[source]
    ensures Consistent(opening, Post(l, source, dest, amount, currency))
  {
    var id := |l.transactions|;
    TwoMore(l.entries, Entry(id, source, Debit, amount, currency), Entry(id, dest, Credit, amount, currency));
    NoEntryNoImbalance(l.entries, id);
  }

  /** Moving money inside a currency leaves every total as it was, also onto the same account. */
  lemma {:induction false} MoveKeepsTotal(
    b: map<Account, int>, rows: seq<Account>, source: Account, dest: Account, amount: int, currency: string)
    requires source in b && dest in b && source in rows && dest in rows && source.currency == dest.currency
    requires forall i, j | 0 <= i < j < |rows| :: rows[i] != rows[j]
    ensures var debited := b[source := b[source] - amount];
      Total(debited[dest := debited[dest] + amount], rows, currency) == Total(b, rows, currency)
  {
    var debited := b[source := b[source] - amount];
    SetChangesTotal(b, rows, source, b[source] - amount, currency);
    SetChangesTotal(debited, rows, dest, debited[dest] + amount, currency);
  }

  lemma {:induction false} SetChangesTotal(b: map<Account, int>, rows: seq<Account>, a: Account, v: int, currency: string)
    requires a in b && forall i, j | 0 <= i < j < |rows| :: rows[i] != rows[j]
    ensures Total(b[a := v], rows, currency) == Total(b, rows, currency)
            + if a in rows && a.currency == currency then v - b[a] else 0
  {
    if rows != [] {
      assert rows == [rows[0]] + rows[1..];
      SetChangesTotal(b, rows[1..], a, v, currency);
    }
  }

  // ----- every operation -----------------------------------------------------------------

  /** l2 is l1 after at most two postings, each covered, positive and within one currency. */
  ghost predicate Posted(l1: Ledger, l2: Ledger) {
    l2 == l1 || exists source, dest, amount, currency :: PostedOnce(l1, l2, source, dest, amount, currency)
  }

  ghost predicate PostedOnce(l1: Ledger, l2: Ledger, source: Account, dest: Account, amount: int, currency: string) {
    && source in l1.balances && dest in l1.balances && source.currency == dest.currency == currency
    && 0 < amount <= l1.balances[source] && l2 == Post(l1, source, dest, amount, currency)
  }

  lemma ExecPosts(l: Ledger, op: Op) returns (mid: Ledger)
    ensures Posted(l, mid) && Posted(mid, Exec(l, op).0)
    ensures Exec(l, op).1.Err? ==> Exec(l, op).0 == l
  {
    mid := l;
    var (l', r) := Exec(l, op);
    if r.Ok? {
      match op
      case LockOp(u, s, side, p, q) =>
        var c := Currency(s, side);
        assert PostedOnce(l, l', Account(u, c, Checking), Account(u, c, Escrow), Amount(side, p, q), c);
      case ReleaseOp(u, s, side, p, q) =>
        var c := Currency(s, side);
        assert PostedOnce(l, l', Account(u, c, Escrow), Account(u, c, Checking), Amount(side, p, q), c);
      case SettleOp(b, s, sym, p, q) =>
        mid := TryPost(l, BuyerCash(b), SellerCash(s), p * q, "USD").0;
        assert PostedOnce(l, mid, BuyerCash(b), SellerCash(s), p * q, "USD");
        assert PostedOnce(mid, l', SellerAsset(s, sym), BuyerAsset(b, sym), q, Asset(sym));
    }
  }

  lemma PostKeepsTotal(l: Ledger, source: Account, dest: Account, amount: int, c: string, rows: seq<Account>, currency: string)
    requires source in l.balances && dest in l.balances && source.currency == dest.currency
    requires Lists(rows, l.balances.Keys)
    ensures Total(Post(l, source, dest, amount, c).balances, rows, currency) == Total(l.balances, rows, currency)
  {
    MoveKeepsTotal(l.balances, rows, source, dest, amount, currency);
  }

  lemma PostedKeeps(opening: map<Account, int>, l1: Ledger, l2: Ledger, rows: seq<Account>, currency: string)
    requires Consistent(opening, l1) && Posted(l1, l2) && Lists(rows, l1.balances.Keys)
    ensures Consistent(opening, l2) && Total(l2.balances, rows, currency) == Total(l1.balances, rows, currency)
    ensures l2.balances.Keys == l1.balances.Keys
  {
    hide Consistent, Lists, Total;
    if l2 != l1 {
      var source, dest, amount, c :| PostedOnce(l1, l2, source, dest, amount, c);
      PostKeepsConsistent(opening, l1, source, dest, amount, c);
      PostKeepsTotal(l1, source, dest, amount, c, rows, currency);
    }
  }

  /**
   * After any operations on non-negative opening balances: every balance is its opening plus its
   * credits minus its debits, none is negative, every transaction balances to zero, and the total
   * of every currency is what it was.
   */
  lemma {:induction false} LedgerAgrees(opening: map<Account, int>, ops: seq<Op>, rows: seq<Account>, currency: string)
    requires (forall a | a in opening :: opening[a] >= 0) && Lists(rows, opening.Keys)
    ensures var l := RunOps(Ledger(opening, [], []), ops);
      Consistent(opening, l) && Total(l.balances, rows, currency) == Total(opening, rows, currency)
  {
    if ops != [] {
      var before := ops[..|ops| - 1];
      LedgerAgrees(opening, before, rows, currency);
      var l := RunOps(Ledger(opening, [], []), before);
      var mid := ExecPosts(l, ops[|ops| - 1]);
      PostedKeeps(opening, l, mid, rows, currency);
      PostedKeeps(opening, mid, Exec(l, ops[|ops| - 1]).0, rows, currency);
    }
  }

  /** An operation that fails leaves all three tables untouched. */
  lemma FailureChangesNothing(l: Ledger, op: Op)
    ensures Exec(l, op).1.Err? ==> Exec(l, op).0 == l
  {
    var mid := ExecPosts(l, op);
  }

  // ----- what moves where, in plain accounts ---------------------------------------------

  const HOUSE := "00000000-0000-0000-0000-000000000000"

  /** Locking moves the order's worth from the user's checking account to the user's escrow, in one booking. */
  lemma LockMoves(l: Ledger, u: string, symbol: string, side: Side, price: int, quantity: int)
    ensures var (l', r) := Lock(l, u, symbol, side, price, quantity);
      var currency, worth := if side == Buy then "USD" else Asset(symbol), if side == Buy then price * quantity else quantity;
      var free, held := Account(u, currency, Checking), Account(u, currency, Escrow);
      && (r.Ok? <==> free in l.balances && held in l.balances && l.balances[free] >= worth > 0)
      && (r.Ok? ==> BookedOnce(l, l', free, held, worth, currency))
  {}

  /** Releasing moves it back. */
  lemma ReleaseMoves(l: Ledger, u: string, symbol: string, side: Side, price: int, quantity: int)
    ensures var (l', r) := Release(l, u, symbol, side, price, quantity);
      var currency, worth := if side == Buy then "USD" else Asset(symbol), if side == Buy then price * quantity else quantity;
      var free, held := Account(u, currency, Checking), Account(u, currency, Escrow);
      && (r.Ok? <==> free in l.balances && held in l.balances && l.balances[held] >= worth > 0)
      && (r.Ok? ==> BookedOnce(l, l', held, free, worth, currency))
  {}

  /** One transaction from one account to another: its header, its two legs, the two balances, nothing else. */
  ghost predicate BookedOnce(l: Ledger, l': Ledger, source: Account, dest: Account, amount: int, currency: string) {
    && l'.transactions == l.transactions + [Transaction(amount, currency, source, dest)]
    && l'.entries == l.entries + [Entry(|l.transactions|, source, Debit, amount, currency),
                                  Entry(|l.transactions|, dest, Credit, amount, currency)]
    && l'.balances.Keys == l.balances.Keys
    && forall a | a in l.balances :: l'.balances[a] ==
         l.balances[a] - (if a == source then amount else 0) + (if a == dest then amount else 0)
  }

  /**
   * A settlement moves the cash to the seller's checking account and the asset to the buyer's; both are taken
   * from escrow, or from checking if the house is the one who pays.
   */
  lemma SettleMoves(l: Ledger, buyerId: string, sellerId: string, symbol: string, price: int, quantity: int)
    ensures var (l', r) := Settle(l, buyerId, sellerId, symbol, price, quantity);
      var cashFrom := Account(buyerId, "USD", if buyerId == HOUSE then Checking else Escrow);
      var assetFrom := Account(sellerId, Asset(symbol), if sellerId == HOUSE then Checking else Escrow);
      var cashTo, assetTo := Account(sellerId, "USD", Checking), Account(buyerId, Asset(symbol), Checking);
      r.Ok? ==>
        && l'.balances.Keys == l.balances.Keys
        && (forall a | a in l.balances :: l'.balances[a] == l.balances[a]
              - (if a == cashFrom then price * quantity else 0) + (if a == cashTo then price * quantity else 0)
              - (if a == assetFrom then quantity else 0) + (if a == assetTo then quantity else 0))
        && exists mid :: BookedOnce(l, mid, cashFrom, cashTo, price * quantity, "USD")
                         && BookedOnce(mid, l', assetFrom, assetTo, quantity, Asset(symbol))
  {
    var (l', r) := Settle(l, buyerId, sellerId, symbol, price, quantity);
    if r.Ok? {
      var mid := TryPost(l, BuyerCash(buyerId), SellerCash(sellerId), price * quantity, "USD").0;
      assert BookedOnce(l, mid, BuyerCash(buyerId), SellerCash(sellerId), price * quantity, "USD");
      assert BookedOnce(mid, l', SellerAsset(sellerId, symbol), BuyerAsset(buyerId, symbol), quantity, Asset(symbol));
    }
  }

  /** A settlement goes through exactly when the four wallets exist and can pay in turn. */
  lemma SettleSucceedsExactly(l: Ledger, buyerId: string, sellerId: string, symbol: string, price: int, quantity: int)
    requires price > 0 && quantity > 0
    ensures Settle(l, buyerId, sellerId, symbol, price, quantity).1.Ok? <==>
      var cashFrom := Account(buyerId, "USD", if buyerId == HOUSE then Checking else Escrow);
      var assetFrom := Account(sellerId, Asset(symbol), if sellerId == HOUSE then Checking else Escrow);
      var cashTo, assetTo := Account(sellerId, "USD", Checking), Account(buyerId, Asset(symbol), Checking);
      && {cashFrom, cashTo, assetFrom, assetTo} <= l.balances.Keys
      && l.balances[cashFrom] >= price * quantity && l.balances[assetFrom] >= quantity
      && (cashFrom == assetFrom && cashFrom != cashTo ==> l.balances[cashFrom] >= price * quantity + quantity)
  {
    assert price * quantity > 0;
  }

  // ----- the asset of a symbol -----------------------------------------------------------

  ghost predicate QuotedAt(s: string, i: nat) {
    i + 4 <= |s| && s[i..i + 4] == "USDT"
  }

  /** The asset is the symbol without its first USDT. */
  lemma {:induction false} AssetDropsTheFirst(s: string, i: nat)
    requires QuotedAt(s, i) && forall j: nat | j < i :: !QuotedAt(s, j)
    ensures Asset(s) == s[..i] + s[i + 4..]
  {
    if i == 0 {
      assert s[..4] == s[0..4];
    } else {
      assert !QuotedAt(s, 0) && s[..4] == s[0..4];
      assert s[1..][i - 1..i + 3] == s[i..i + 4];
      forall j: nat | j < i - 1 ensures !QuotedAt(s[1..], j) {
        assert !QuotedAt(s, j + 1);
        assert j + 5 <= |s| ==> s[1..][j..j + 4] == s[j + 1..j + 5];
      }
      AssetDropsTheFirst(s[1..], i - 1);
      assert [s[0]] + s[1..][..i - 1] == s[..i] && s[1..][i + 3..] == s[i + 4..];
    }
  }

  /** Without one it is the symbol itself. */
  lemma {:induction false} AssetKeepsOthers(s: string)
    requires forall j: nat :: !QuotedAt(s, j)
    ensures Asset(s) == s
  {
    if |s| >= 4 {
      assert !QuotedAt(s, 0) && s[..4] == s[0..4];
      forall j: nat ensures !QuotedAt(s[1..], j) {
        assert !QuotedAt(s, j + 1);
        assert j + 5 <= |s| ==> s[1..][j..j + 4] == s[j + 1..j + 5];
      }
      AssetKeepsOthers(s[1..]);
    }
  }
}
