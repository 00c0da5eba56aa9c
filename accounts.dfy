/** The trading account: cash, holdings and an append-only log, changed in
    place by deposits, withdrawals, purchases and sales, and read by the
    valuation and profit/loss reports. */
module Accounts {
  import opened Wrappers
  import opened Ledger
  import Market

  /** Why an operation was refused; each refusal leaves the account untouched. */
  datatype Error =
    | NegativeInitialDeposit
    | NonPositiveAmount
    | InsufficientFunds
    | NonPositiveQuantity
    | UnknownSymbol(symbol: string)
    | InsufficientShares(held: int)

  /** Cash plus every holding at its current price, visiting the holdings in
      whatever order the map yields them and skipping unquoted symbols. */
  method Appraise(cash: int, holdings: map<string, int>) returns (total: int)
    ensures total == Valuation(State(cash, holdings))
  {
    total := cash;
    var left := holdings.Keys;
    ghost var done: set<string> := {};
    while left != {}
      invariant left !! done && left + done == holdings.Keys
      invariant total == cash + Worth(holdings, done)
      decreases left
    {
      var symbol :| symbol in left;
      var price := Market.SharePrice(symbol);
      if price.Some? {
        total := total + price.value * holdings[symbol];
      }
      WorthRemove(holdings, done + {symbol}, symbol);
      assert done + {symbol} - {symbol} == done;
      left := left - {symbol};
      done := done + {symbol};
    }
    assert done == holdings.Keys;
  }

  /** One iteration of the point-in-time replay: applies a record to the
      rebuilt cash and holdings, creating an entry on a purchase and deleting
      one that a sale brings to 0. The sale's entry must exist. */
  method ReplayRecord(cash: int, holdings: map<string, int>, t: Transaction)
    returns (cash': int, holdings': map<string, int>)
    requires Step(State(cash, holdings), t).Some?
    ensures Step(State(cash, holdings), t) == Some(State(cash', holdings'))
  {
    cash', holdings' := cash, holdings;
    match t {
      case Deposit(_, amount) =>
        cash' := cash' + amount;
      case Withdrawal(_, amount) =>
        cash' := cash' - amount;
      case Buy(_, amount, symbol, quantity, _) =>
        cash' := cash' - amount;
        AddSharesInPlace(holdings', symbol, quantity);
        if symbol !in holdings' {
          holdings' := holdings'[symbol := 0];
        }
        holdings' := holdings'[symbol := holdings'[symbol] + quantity];
      case Sell(_, amount, symbol, quantity, _) =>
        cash' := cash' + amount;
        RemoveSharesInPlace(holdings', symbol, quantity);
        holdings' := holdings'[symbol := holdings'[symbol] - quantity];
        if holdings'[symbol] == 0 {
          holdings' := holdings' - {symbol};
        }
    }
  }

  /** The reconstruction loop of the point-in-time report: replays `log` in
      order from an empty account, stopping at the first record stamped after
      `t`, and totals deposits minus withdrawals on the way. A log whose whole
      replay succeeds never sells a symbol the rebuilt holdings lack. */
  method ReplayUpTo(log: seq<Transaction>, t: nat) returns (cash: int, holdings: map<string, int>, totalDeposits: int)
    requires Replay(log).Some?
    ensures Replay(log[..Cutoff(log, t)]) == Some(State(cash, holdings))
    ensures totalDeposits == NetDeposits(log[..Cutoff(log, t)])
  {
    cash, holdings, totalDeposits := 0, map[], 0;
    var i := 0;
    while i < |log|
      invariant i <= |log|
      invariant forall j :: 0 <= j < i ==> log[j].time <= t
      invariant Replay(log[..i]) == Some(State(cash, holdings))
      invariant totalDeposits == NetDeposits(log[..i])
    {
      var tx := log[i];
      if tx.time > t {
        break;
      }
      ReplayPrefix(log, i + 1);
      assert log[..i + 1] == log[..i] + [tx];
      ReplayExtend(log[..i], tx);
      NetDepositsExtend(log[..i], tx);
      cash, holdings := ReplayRecord(cash, holdings, tx);
      if tx.Deposit? {
        totalDeposits := totalDeposits + tx.amount;
      } else if tx.Withdrawal? {
        totalDeposits := totalDeposits - tx.amount;
      }
      i := i + 1;
    }
    assert i == Cutoff(log, t);
  }

  class Account {
    var cash: int
    var initialDeposit: int
    var holdings: map<string, int>
    var transactions: seq<Transaction>

    /** The account invariant: the opening deposit is not negative and the
        log is consistent with cash and holdings (see `Consistent`): cash
        and holdings are exactly what replaying the log rebuilds. */
    ghost predicate Valid()
      reads this
    {
      initialDeposit >= 0 && Consistent(transactions, State(cash, holdings))
    }

    /** The account as it stands: its cash and holdings. */
    ghost function Current(): State
      reads this
    {
      State(cash, holdings)
    }

    /** Opens an account with `initial` in cash; a positive opening deposit
        is the first record of the log, a zero one records nothing. */
    constructor (initial: int, now: nat)
      requires initial >= 0
      ensures Valid()
      ensures cash == initial && initialDeposit == initial && holdings == map[]
      ensures transactions == if initial > 0 then [Deposit(now, initial)] else []
    {
      cash := initial;
      initialDeposit := initial;
      holdings := map[];
      transactions := [];
      new;
      if initial > 0 {
        RecordTransaction(Deposit(now, initial));
        assert transactions == [] + [Deposit(now, initial)];
        AppendRecord([], Deposit(now, initial), Empty, State(initial, map[]));
      }
    }

    /** Appends one record to the log and touches nothing else. */
    method RecordTransaction(t: Transaction)
      modifies this`transactions
      ensures transactions == old(transactions) + [t]
    {
      transactions := transactions + [t];
    }

    /** Adds `amount` to cash; refuses a non-positive amount. */
    method DepositFunds(amount: int, now: nat) returns (r: Outcome<Error>)
      requires Valid() && NotBefore(transactions, now)
      modifies this`cash, this`holdings, this`transactions
      ensures Valid()
      ensures r == if amount <= 0 then Fail(NonPositiveAmount) else Pass
      ensures r.Fail? ==> unchanged(this)
      ensures r.Pass? ==> cash == old(cash) + amount && holdings == old(holdings)
                          && transactions == old(transactions) + [Deposit(now, amount)]
    {
      if amount <= 0 {
        return Fail(NonPositiveAmount);
      }
      cash := cash + amount;
      RecordTransaction(Deposit(now, amount));
      AppendRecord(old(transactions), Deposit(now, amount), old(Current()), Current());
      r := Pass;
    }

    /** Takes `amount` out of cash; refuses a non-positive amount and one
        larger than the cash available, so cash never goes negative. */
    method WithdrawFunds(amount: int, now: nat) returns (r: Outcome<Error>)
      requires Valid() && NotBefore(transactions, now)
      modifies this`cash, this`holdings, this`transactions
      ensures Valid()
      ensures r == if amount <= 0 then Fail(NonPositiveAmount)
                   else if amount > old(cash) then Fail(InsufficientFunds)
                   else Pass
      ensures r.Fail? ==> unchanged(this)
      ensures r.Pass? ==> cash == old(cash) - amount && holdings == old(holdings)
                          && transactions == old(transactions) + [Withdrawal(now, amount)]
    {
      if amount <= 0 {
        return Fail(NonPositiveAmount);
      }
      if amount > cash {
        return Fail(InsufficientFunds);
      }
      cash := cash - amount;
      RecordTransaction(Withdrawal(now, amount));
      AppendRecord(old(transactions), Withdrawal(now, amount), old(Current()), Current());
      r := Pass;
    }

    /** Buys `quantity` shares of `symbol` at the quoted price; refuses a
        non-positive quantity, an unquoted symbol and a cost above the cash. */
    method BuyShares(symbol: string, quantity: int, now: nat) returns (r: Outcome<Error>)
      requires Valid() && NotBefore(transactions, now)
      modifies this`cash, this`holdings, this`transactions
      ensures Valid()
      ensures r == if quantity <= 0 then Fail(NonPositiveQuantity)
                   else if Market.SharePrice(symbol).None? then Fail(UnknownSymbol(symbol))
                   else if Market.SharePrice(symbol).value * quantity > old(cash) then Fail(InsufficientFunds)
                   else Pass
      ensures r.Fail? ==> unchanged(this)
      ensures r.Pass? ==>
                var price := Market.SharePrice(symbol).value;
                && cash == old(cash) - price * quantity
                && holdings == AddShares(old(holdings), symbol, quantity)
                && transactions == old(transactions) + [Buy(now, price * quantity, symbol, quantity, price)]
    {
      if quantity <= 0 {
        return Fail(NonPositiveQuantity);
      }
      var quote := Market.SharePrice(symbol);
      if quote.None? {
        return Fail(UnknownSymbol(symbol));
      }
      var price := quote.value;
      var totalCost := price * quantity;
      if totalCost > cash {
        return Fail(InsufficientFunds);
      }
      cash := cash - totalCost;
      AddSharesInPlace(holdings, symbol, quantity);
      if symbol !in holdings {
        holdings := holdings[symbol := 0];
      }
      holdings := holdings[symbol := holdings[symbol] + quantity];
      var t := Buy(now, totalCost, symbol, quantity, price);
      RecordTransaction(t);
      AppendRecord(old(transactions), t, old(Current()), Current());
      r := Pass;
    }

    /** Sells `quantity` shares of `symbol` at the quoted price; refuses a
        non-positive quantity and a sale of more than is held (both before
        pricing), then an unquoted symbol. An entry that reaches 0 is deleted. */
    method SellShares(symbol: string, quantity: int, now: nat) returns (r: Outcome<Error>)
      requires Valid() && NotBefore(transactions, now)
      modifies this`cash, this`holdings, this`transactions
      ensures Valid()
      ensures r == if quantity <= 0 then Fail(NonPositiveQuantity)
                   else if Held(old(holdings), symbol) < quantity then Fail(InsufficientShares(Held(old(holdings), symbol)))
                   else if Market.SharePrice(symbol).None? then Fail(UnknownSymbol(symbol))
                   else Pass
      ensures r.Fail? ==> unchanged(this)
      ensures r.Pass? ==>
                var price := Market.SharePrice(symbol).value;
                && symbol in old(holdings)
                && cash == old(cash) + price * quantity
                && holdings == RemoveShares(old(holdings), symbol, quantity)
                && transactions == old(transactions) + [Sell(now, price * quantity, symbol, quantity, price)]
    {
      if quantity <= 0 {
        return Fail(NonPositiveQuantity);
      }
      if symbol !in holdings || holdings[symbol] < quantity {
        return Fail(InsufficientShares(Held(holdings, symbol)));
      }
      var quote := Market.SharePrice(symbol);
      if quote.None? {
        return Fail(UnknownSymbol(symbol));
      }
      var price := quote.value;
      var totalRevenue := price * quantity;
      cash := cash + totalRevenue;
      RemoveSharesInPlace(holdings, symbol, quantity);
      holdings := holdings[symbol := holdings[symbol] - quantity];
      if holdings[symbol] == 0 {
        holdings := holdings - {symbol};
      }
      var t := Sell(now, totalRevenue, symbol, quantity, price);
      RecordTransaction(t);
      AppendRecord(old(transactions), t, old(Current()), Current());
      r := Pass;
    }

    /** Cash plus every holding at its current price; never below the cash. */
    method CalculatePortfolioValue() returns (value: int)
      requires Valid()
      ensures value == Valuation(Current())
      ensures value >= cash
    {
      value := Appraise(cash, holdings);
      WorthNonNegative(holdings, holdings.Keys);
    }

    /** Portfolio value less deposits minus withdrawals, as read from the log. */
    method CalculateProfitLoss() returns (pl: int)
      requires Valid()
      ensures pl == ProfitLoss(Current(), transactions)
    {
      var currentValue := CalculatePortfolioValue();
      var totalDeposits := 0;
      var i := 0;
      while i < |transactions|
        invariant i <= |transactions|
        invariant totalDeposits == NetDeposits(transactions[..i])
      {
        var t := transactions[i];
        if t.Deposit? {
          totalDeposits := totalDeposits + t.amount;
        } else if t.Withdrawal? {
          totalDeposits := totalDeposits - t.amount;
        }
        NetDepositsExtend(transactions[..i], t);
        assert transactions[..i + 1] == transactions[..i] + [t];
        i := i + 1;
      }
      assert transactions[..i] == transactions;
      pl := currentValue - totalDeposits;
    }

    /** The holdings as a value, every entry positive, consistent with the log. */
    method GetHoldings() returns (h: map<string, int>)
      requires Valid()
      ensures h == holdings
      ensures AllPositive(h)
      ensures Replay(transactions) == Some(State(cash, h))
    {
      h := holdings;
    }

    /** The log as a value, in clock order. */
    method GetTransactions() returns (log: seq<Transaction>)
      requires Valid()
      ensures log == transactions
      ensures Chronological(log)
      ensures forall i :: 0 <= i < |log| ==> Recorded(log[i])
    {
      log := transactions;
    }

    /** Profit or loss now (no timestamp), or as of `timestamp`: replay the
        log from an empty account up to the first record stamped after it,
        value the rebuilt holdings at current prices, and subtract the net
        funding replayed. */
    method ReportProfitLoss(timestamp: Option<nat>) returns (pl: int)
      requires Valid()
      ensures timestamp.None? ==> pl == ProfitLoss(Current(), transactions)
      ensures timestamp.Some? ==>
                var past := transactions[..Cutoff(transactions, timestamp.value)];
                && past == NotAfter(transactions, timestamp.value)
                && Replay(past).Some?
                && pl == ProfitLoss(Replay(past).value, past)
      ensures timestamp.Some? && NotBefore(transactions, timestamp.value) ==>
                pl == ProfitLoss(Current(), transactions)
    {
      if timestamp.None? {
        pl := CalculateProfitLoss();
        return;
      }
      var t := timestamp.value;
      var c, h, totalDeposits := ReplayUpTo(transactions, t);
      var portfolioValue := Appraise(c, h);
      pl := portfolioValue - totalDeposits;
      CutoffIsNotAfter(transactions, t);
      if NotBefore(transactions, t) {
        ReportAfterLastIsCurrent(transactions, Current(), t);
      }
    }
  }

  /** Opens an account, refusing a negative opening deposit; a new account
      breaks even. */
  method Create(initial: int, now: nat) returns (r: Result<Account, Error>)
    ensures r.Failure? <==> initial < 0
    ensures r.Failure? ==> r.error == NegativeInitialDeposit
    ensures r.Success? ==> fresh(r.value) && r.value.Valid()
    ensures r.Success? ==> r.value.cash == initial && r.value.initialDeposit == initial && r.value.holdings == map[]
    ensures r.Success? ==> r.value.transactions == if initial > 0 then [Deposit(now, initial)] else []
    ensures r.Success? ==> ProfitLoss(r.value.Current(), r.value.transactions) == 0
  {
    if initial < 0 {
      return Failure(NegativeInitialDeposit);
    }
    var account := new Account(initial, now);
    assert account.Current() == State(initial, map[]);
    assert Worth(map[], {}) == 0;
    if initial > 0 {
      NetDepositsExtend([], Deposit(now, initial));
      assert [] + [Deposit(now, initial)] == account.transactions;
    }
    r := Success(account);
  }

  /** A purchase followed by a sale of the same symbol and count (at the
      fixed quotes). Only the purchase can be refused, for the purchase's own
      reasons, and then nothing changes; once it succeeds the sale succeeds
      too, cash and holdings are restored, and the log gains the buy and the
      sell record. */
  method BuyThenSell(account: Account, symbol: string, quantity: int, bought: nat, sold: nat)
    returns (r: Outcome<Error>)
    requires account.Valid() && NotBefore(account.transactions, bought) && bought <= sold
    modifies account`cash, account`holdings, account`transactions
    ensures account.Valid()
    ensures account.cash == old(account.cash) && account.holdings == old(account.holdings)
    ensures r == if quantity <= 0 then Fail(NonPositiveQuantity)
                 else if Market.SharePrice(symbol).None? then Fail(UnknownSymbol(symbol))
                 else if Market.SharePrice(symbol).value * quantity > old(account.cash) then Fail(InsufficientFunds)
                 else Pass
    ensures r.Fail? ==> account.transactions == old(account.transactions)
    ensures r.Pass? ==>
              var price := Market.SharePrice(symbol).value;
              account.transactions == old(account.transactions) +
                [Buy(bought, price * quantity, symbol, quantity, price),
                 Sell(sold, price * quantity, symbol, quantity, price)]
  {
    r := account.BuyShares(symbol, quantity, bought);
    if r.Fail? {
      return;
    }
    r := account.SellShares(symbol, quantity, sold);
    BuyThenSellRestores(old(account.Current()), bought, sold, symbol, quantity, Market.SharePrice(symbol).value);
  }

  /** The log the scenario below writes: open with 10000.00 at clock 1,
      deposit 5000.00 at 2, withdraw 2000.00 at 3, buy 10 AAPL at 150.00 at
      4, sell 5 AAPL at 5. */
  const ScenarioLog: seq<Transaction> :=
    [Deposit(1, 1000000), Deposit(2, 500000), Withdrawal(3, 200000),
     Buy(4, 150000, "AAPL", 10, 15000), Sell(5, 75000, "AAPL", 5, 15000)]

  /** What that log amounts to: net funding 13000.00 in all, and as of
      clock 2 only the two deposits, 15000.00 in cash and no shares. */
  lemma ScenarioLogFacts()
    ensures NetDeposits(ScenarioLog) == 1300000
    ensures Cutoff(ScenarioLog, 2) == 2
    ensures Replay(ScenarioLog[..2]) == Some(State(1500000, map[]))
    ensures NetDeposits(ScenarioLog[..2]) == 1500000
  {
    var log := ScenarioLog;
    assert [] + [log[0]] == log[..1];
    assert log[..1] + [log[1]] == log[..2];
    assert log[..2] + [log[2]] == log[..3];
    assert log[..3] + [log[3]] == log[..4];
    assert log[..4] + [log[4]] == log;
    NetDepositsExtend([], log[0]);
    NetDepositsExtend(log[..1], log[1]);
    NetDepositsExtend(log[..2], log[2]);
    NetDepositsExtend(log[..3], log[3]);
    NetDepositsExtend(log[..4], log[4]);
    ReplayExtend([], log[0]);
    ReplayExtend(log[..1], log[1]);
  }

  /** A single holding of AAPL is worth its share count at 150.00. */
  lemma AaplValuation(cash: int, shares: int)
    ensures Valuation(State(cash, map["AAPL" := shares])) == cash + 15000 * shares
  {
    var h := map["AAPL" := shares];
    assert h.Keys == {"AAPL"};
    WorthRemove(h, {"AAPL"}, "AAPL");
    assert {"AAPL"} - {"AAPL"} == {};
  }

  /** Open with 10000.00 at clock 1, deposit 5000.00 at 2, withdraw
      2000.00 at 3, buy 10 AAPL at 150.00 at 4 and sell 5 at 5: every step
      succeeds and the account ends with 12250.00 and 5 AAPL. */
  method ScenarioTrades() returns (account: Account)
    ensures fresh(account) && account.Valid()
    ensures account.cash == 1225000 && account.holdings == map["AAPL" := 5]
    ensures account.transactions == ScenarioLog
  {
    assert Market.SharePrice("AAPL") == Some(15000);
    assert AddShares(map[], "AAPL", 10) == map["AAPL" := 10];
    assert RemoveShares(map["AAPL" := 10], "AAPL", 5) == map["AAPL" := 5];
    assert [ScenarioLog[0]] + [ScenarioLog[1]] + [ScenarioLog[2]] + [ScenarioLog[3]] + [ScenarioLog[4]] == ScenarioLog;
    var created := Create(1000000, 1);
    account := created.value;
    var r := account.DepositFunds(500000, 2);
    r := account.WithdrawFunds(200000, 3);
    r := account.BuyShares("AAPL", 10, 4);
    assert account.holdings == AddShares(map[], "AAPL", 10);
    r := account.SellShares("AAPL", 5, 5);
  }

  /** The reports after that scenario: value 13000.00 (cash included),
      break-even now, and break-even as of clock 2 with 15000.00 in cash. */
  method Scenario() returns (cash: int, holdings: map<string, int>, records: nat, value: int, pl: int, early: int)
    ensures cash == 1225000 && holdings == map["AAPL" := 5] && records == 5
    ensures value == 1300000 && pl == 0 && early == 0
  {
    var account := ScenarioTrades();
    cash, holdings, records := account.cash, account.holdings, |account.transactions|;
    ScenarioLogFacts();
    AaplValuation(cash, 5);
    assert Valuation(State(1500000, map[])) == 1500000;
    value := account.CalculatePortfolioValue();
    pl := account.ReportProfitLoss(None);
    early := account.ReportProfitLoss(Some(2));
  }
}
