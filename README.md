# Trading account ledger

A Dafny model of the simulated brokerage account in
`crew_3_x/engineering_team/output/accounts.py`. The account holds three
pieces of state:

- a cash balance;
- a holdings map from stock symbol to share count;
- an append-only transaction log.

It is changed in place by deposits, withdrawals, purchases and sales, priced
from a fixed share-price table. It is read by a portfolio valuation, a current
profit/loss, and a point-in-time profit/loss that rebuilds cash and holdings by
replaying the log up to a clock reading.

Layout:

- `wrappers.dfy` (`Wrappers`): `Option`, `Result` and `Outcome`, which stand in for the exceptions.
- `market.dfy` (`Market`): the fixed price table `get_share_price`.
- `ledger.dfy` (`Ledger`): the pure side. It holds the transaction record, the
  effect of one record (`Step`), replay from an empty account (`Replay`),
  net funding (`NetDeposits`), the point where the point-in-time replay stops
  (`Cutoff`), valuation (`Worth`, `Valuation`, `ProfitLoss`), and the lemmas
  about them.
- `accounts.dfy` (`Accounts`): the `Account` class. Its fields are `cash`,
  `initialDeposit`, `holdings` and `transactions`, and its methods update them
  in place. The file also holds the valuation and replay loops as methods
  proved against the `Ledger` functions, the constructor wrapper `Create`,
  and two client methods: a buy/sell round trip and a worked scenario.

Representation choices:

- Money is an integer number of cents: 150.00 is `15000`.
- The wall-clock reading taken when a record is written is a `now: nat`
  argument to every mutating call. A call requires that `now` is not earlier
  than the last record (`NotBefore`), so the log stays in clock order
  (`Chronological`).
- A log record is a datatype with one variant per kind. A deposit or
  withdrawal has no symbol, quantity or price, so those fields exist only on
  the trade variants instead of being `None`.
- Each `ValueError` is an `Error` value. The mutating methods return
  `Outcome<Error>`, and `Create` returns `Result<Account, Error>`.
- The account invariant `Valid()` has two parts. The opening deposit is not
  negative. The log is `Consistent` with the account: cash is not negative,
  every holding is positive, the log is chronological and well formed, and
  replaying it from an empty account rebuilds exactly the current cash and
  holdings. Every mutating method keeps it.

What the code computes, which the model follows:

- The portfolio value includes cash (accounts.py:217-219, as its docstring
  says). In the worked scenario the value is 13000.00 and the profit/loss is 0.
- The profit/loss baseline is deposits minus withdrawals, recomputed from the
  log (accounts.py:239-245). The `_initial_deposit` field is set once and used
  by no calculation in the class; only the `initial_deposit` property returns
  it. The model keeps it as `initialDeposit` and leaves it unchanged by every
  method.
- The code calls one fixed price table directly; it has no pluggable price
  source. `Market.SharePrice` is that table.

## Model

| member | source | states |
|---|---|---|
| Market.SharePrice | crew_3_x/engineering_team/output/accounts.py:16-39 | a price is returned exactly for the symbols in the fixed table; every quoted price is positive; any other symbol is the unknown-symbol failure |
| Accounts.Create | crew_3_x/engineering_team/output/accounts.py:49-70 | a negative opening deposit is refused and nothing else is; otherwise cash and the stored opening deposit equal the deposit, holdings are empty, the log holds one deposit record if the deposit is positive and none if it is 0, the invariant holds, and profit/loss is 0 |
| Accounts.Account.constructor | crew_3_x/engineering_team/output/accounts.py:58-70 | for a non-negative opening deposit: cash and the stored opening deposit equal it, holdings are empty, the log holds one deposit record exactly when the deposit is positive, and the invariant holds |
| Accounts.Account.RecordTransaction | crew_3_x/engineering_team/output/accounts.py:72-92 | appends exactly one record to the log and changes no other field |
| Accounts.Account.DepositFunds | crew_3_x/engineering_team/output/accounts.py:94-107 | refuses exactly a non-positive amount and then changes nothing; otherwise cash rises by the amount, holdings are unchanged, one deposit record is appended, and the invariant is kept |
| Accounts.Account.WithdrawFunds | crew_3_x/engineering_team/output/accounts.py:109-125 | refuses a non-positive amount first and an amount above cash second, changing nothing; otherwise cash drops by the amount and stays non-negative, holdings are unchanged, one withdrawal record is appended, and the invariant is kept |
| Accounts.Account.BuyShares | crew_3_x/engineering_team/output/accounts.py:127-168 | refuses a non-positive quantity, then an unquoted symbol, then a cost above cash, changing nothing; otherwise cash drops by price times quantity, the symbol's entry grows by the quantity (from 0 if absent), every other entry is unchanged, one buy record with amount, symbol, quantity and price is appended, and the invariant is kept |
| Accounts.Account.SellShares | crew_3_x/engineering_team/output/accounts.py:170-211 | refuses a non-positive quantity, then a held count below the quantity (before pricing, reporting the count held), then an unquoted symbol, changing nothing; otherwise cash rises by price times quantity, the entry drops by the quantity and is deleted at 0 so every holding stays positive, one sell record is appended, and the invariant is kept |
| Ledger.AddSharesInPlace | crew_3_x/engineering_team/output/accounts.py:157-159 | creating a missing entry at 0 and then adding is the same as adding to the held count |
| Ledger.RemoveSharesInPlace | crew_3_x/engineering_team/output/accounts.py:198-202 | subtracting and then deleting an entry that reached 0 is the same as `RemoveShares` |
| Ledger.AppendRecord | crew_3_x/engineering_team/output/accounts.py:84-92 | appending a well-formed record that is no earlier than the last one, and whose step leads to non-negative cash and positive holdings, keeps the log consistent: still chronological, and its replay rebuilds the new state |
| Ledger.ReplayExtend | crew_3_x/engineering_team/output/accounts.py:284-305 | replaying one more record applies one more step to the replay of the log before it |
| Ledger.ReplayPrefix | crew_3_x/engineering_team/output/accounts.py:300-305 | if the whole log replays without a missing-key sale, so does every prefix of it; so the replay's subtraction from the holdings never meets a missing key |
| Ledger.WorthRemove | crew_3_x/engineering_team/output/accounts.py:219-229 | any holding can be summed first: the portfolio sum does not depend on the order in which the holdings are visited |
| Ledger.WorthNonNegative | crew_3_x/engineering_team/output/accounts.py:219-229 | with positive share counts and positive quotes, the holdings add a non-negative amount to the value |
| Accounts.Appraise | crew_3_x/engineering_team/output/accounts.py:219-229 | the loop returns cash plus each holding's count times its current price, skipping unquoted symbols, whatever order it visits them in |
| Accounts.Account.CalculatePortfolioValue | crew_3_x/engineering_team/output/accounts.py:213-229 | the result is the account's valuation (cash included), and it is never below the cash balance |
| Ledger.NetDepositsExtend | crew_3_x/engineering_team/output/accounts.py:240-245 | one more record changes net funding by +amount for a deposit, -amount for a withdrawal, and 0 for a trade |
| Accounts.Account.CalculateProfitLoss | crew_3_x/engineering_team/output/accounts.py:231-247 | the result is the portfolio value less deposits minus withdrawals over the whole log |
| Accounts.Account.GetHoldings | crew_3_x/engineering_team/output/accounts.py:249-255 | returns the holdings as a value; every entry is positive, and replaying the log rebuilds exactly these holdings with the current cash |
| Accounts.Account.GetTransactions | crew_3_x/engineering_team/output/accounts.py:257-263 | returns the log as a value, in clock order, every record well formed |
| Ledger.Cutoff | crew_3_x/engineering_team/output/accounts.py:284-286 | the replay stops at the first record stamped after the timestamp: every record before the cut is at or before it, and the record at the cut (if any) is after it |
| Ledger.NoneNotAfter | crew_3_x/engineering_team/output/accounts.py:284-286 | in a chronological log whose first record is after the timestamp, no record is at or before it |
| Ledger.CutoffIsNotAfter | crew_3_x/engineering_team/output/accounts.py:284-286 | because clock readings never decrease, stopping at the first later record keeps exactly the records stamped at or before the timestamp |
| Ledger.LastIsLatest | crew_3_x/engineering_team/output/accounts.py:84-92 | every record of a chronological log is at or before any clock reading that is no earlier than its last record |
| Accounts.ReplayRecord | crew_3_x/engineering_team/output/accounts.py:288-305 | one pass of the replay loop body is exactly one `Step` of the replay |
| Accounts.ReplayUpTo | crew_3_x/engineering_team/output/accounts.py:280-306 | the reconstruction loop, including its break, returns the replay of the log up to the cut and the net funding of that prefix |
| Accounts.Account.ReportProfitLoss | crew_3_x/engineering_team/output/accounts.py:265-316 | with no timestamp it is the current profit/loss; with one, it replays exactly the records stamped at or before it, the replay succeeds, and the result is the rebuilt state valued at current prices less that prefix's net funding; at or after the last record it equals the current profit/loss |
| Ledger.ReportAfterLastIsCurrent | crew_3_x/engineering_team/output/accounts.py:265-316 | a point-in-time report taken at or after the last record replays the whole log, rebuilds the live cash and holdings, and gives the same profit/loss as the current one |
| Ledger.BuyThenSellRestores | crew_3_x/engineering_team/output/accounts.py:146-202 | a buy record followed by a sell record of the same symbol, quantity and price restores cash and holdings exactly, deleting an entry the buy created |
| Accounts.BuyThenSell | crew_3_x/engineering_team/output/accounts.py:127-211 | on a live account, a purchase followed by a sale of the same symbol and count is refused exactly when the purchase would be (non-positive quantity, then unquoted symbol, then cost above cash), and then appends no record; otherwise the sale succeeds and the log gains exactly the buy and the sell record at the quoted price; in both cases cash and holdings end as they were |
| Accounts.ScenarioTrades | crew_3_x/engineering_team/output/accounts.py:94-211 | opening with 10000.00, depositing 5000.00, withdrawing 2000.00, buying 10 AAPL and selling 5 leaves 12250.00 in cash, 5 AAPL and five records |
| Accounts.ScenarioLogFacts | crew_3_x/engineering_team/output/accounts.py:280-306 | for that log, net funding is 13000.00, and as of the deposit's clock reading the replay stops after two records, rebuilding 15000.00 in cash, no shares, and 15000.00 of funding |
| Accounts.Scenario | crew_3_x/engineering_team/output/accounts.py:213-316 | after that scenario the portfolio value (cash included) is 13000.00, profit/loss is 0, and the point-in-time profit/loss as of the deposit is 0 |

## Left out

- The clock is a `nat` argument, not `datetime.now()`. Calls require that the clock does not run behind the last record. A wall clock that steps backwards is not modelled.
- Money is integer cents, not Python `float`. Rounding, and any dependence of sums on the order of float additions, is not modelled.
- Exception messages are not modelled. Each refusal is a typed `Error` value, and `InsufficientShares` carries the held count that the message prints.
- The `cash_balance` and `initial_deposit` properties are not separate members: they read the `cash` and `initialDeposit` fields directly.
- Accounts.Account.GetTransactions: the records are modelled as immutable values. The code returns a shallow copy of its list (accounts.py:263), so the record dictionaries are shared with the account; a caller that edits one changes the live log, and with it `calculate_profit_loss` and the replay of `report_profit_loss`, which can then raise `KeyError`. The model's invariant that replaying the log rebuilds cash and holdings does not cover such outside edits.
- The price table is called directly, as the code does. A swappable price source is not modelled.
- The valuation loops in `calculate_portfolio_value` and `report_profit_loss` visit the holdings in an unspecified order, not in the Python dictionary's insertion order. `Ledger.WorthRemove` shows that the order does not change the sum.
- `app.py` (the web front end and its global account), the crew and agent wiring files, the async demo and `unit_test_accounts.py` (which targets a different account API) are not part of this model.
