/** The transaction log of an account and the pure functions that give it a
    meaning: the effect of one record, replay from an empty account, the
    cut-off that the point-in-time report stops at, and valuation at the
    current share prices. Money is in cents; clock readings are `nat`. */
module Ledger {
  import opened Wrappers
  import Market

  /** One record of the log. Deposits and withdrawals carry only an amount;
      trades also carry the symbol, the share count and the unit price used. */
  datatype Transaction =
    | Deposit(time: nat, amount: int)
    | Withdrawal(time: nat, amount: int)
    | Buy(time: nat, amount: int, symbol: string, quantity: int, price: int)
    | Sell(time: nat, amount: int, symbol: string, quantity: int, price: int)

  /** Cash and holdings: the part of an account that replaying the log rebuilds. */
  datatype State = State(cash: int, holdings: map<string, int>)

  /** An account with no cash and no shares, where every replay starts. */
  const Empty: State := State(0, map[])

  /** Shares held of `symbol`, 0 when there is no entry for it. */
  function Held(h: map<string, int>, symbol: string): int {
    if symbol in h then h[symbol] else 0
  }

  /** Every entry of the holdings is a strictly positive share count. */
  predicate AllPositive(h: map<string, int>) {
    forall symbol :: symbol in h ==> h[symbol] > 0
  }

  /** A record as the account writes it: positive amounts and share counts,
      and for a trade an amount that is unit price times share count. */
  predicate Recorded(t: Transaction) {
    match t
    case Deposit(_, amount) => amount > 0
    case Withdrawal(_, amount) => amount > 0
    case Buy(_, amount, _, quantity, price) => quantity > 0 && price > 0 && amount == price * quantity
    case Sell(_, amount, _, quantity, price) => quantity > 0 && price > 0 && amount == price * quantity
  }

  /** Clock readings never decrease along the log. */
  predicate Chronological(log: seq<Transaction>) {
    forall i :: 0 < i < |log| ==> log[i - 1].time <= log[i].time
  }

  /** `now` is not earlier than the last record, so a record stamped `now` may follow. */
  predicate NotBefore(log: seq<Transaction>, now: nat) {
    log == [] || log[|log| - 1].time <= now
  }

  /** A purchase adds to the entry for `symbol`, creating it at 0 first. */
  function AddShares(h: map<string, int>, symbol: string, quantity: int): map<string, int> {
    h[symbol := Held(h, symbol) + quantity]
  }

  /** A sale takes from the entry for `symbol` and deletes it when it reaches 0. */
  function RemoveShares(h: map<string, int>, symbol: string, quantity: int): map<string, int>
    requires symbol in h
  {
    var left := h[symbol] - quantity;
    if left == 0 then h - {symbol} else h[symbol := left]
  }

  /** The two in-place updates of a purchase (create the entry at 0 when it
      is missing, then add) amount to `AddShares`. */
  lemma AddSharesInPlace(h: map<string, int>, symbol: string, quantity: int)
    ensures var h' := if symbol in h then h else h[symbol := 0];
            h'[symbol := h'[symbol] + quantity] == AddShares(h, symbol, quantity)
  {
  }

  /** The two in-place updates of a sale (subtract, then delete an entry
      that reached 0) amount to `RemoveShares`. */
  lemma RemoveSharesInPlace(h: map<string, int>, symbol: string, quantity: int)
    requires symbol in h
    ensures var h' := h[symbol := h[symbol] - quantity];
            (if h'[symbol] == 0 then h' - {symbol} else h') == RemoveShares(h, symbol, quantity)
  {
  }

  /** The effect of one record during replay. A sale of a symbol with no entry
      is the missing-key failure of the replay loop, here `None`. */
  function Step(s: State, t: Transaction): Option<State> {
    match t
    case Deposit(_, amount) => Some(State(s.cash + amount, s.holdings))
    case Withdrawal(_, amount) => Some(State(s.cash - amount, s.holdings))
    case Buy(_, amount, symbol, quantity, _) =>
      Some(State(s.cash - amount, AddShares(s.holdings, symbol, quantity)))
    case Sell(_, amount, symbol, quantity, _) =>
      if symbol in s.holdings then Some(State(s.cash + amount, RemoveShares(s.holdings, symbol, quantity)))
      else None
  }

  /** Replays `log` in order from the empty account; `None` once a step fails. */
  function Replay(log: seq<Transaction>): Option<State> {
    if log == [] then Some(Empty)
    else
      match Replay(log[..|log| - 1])
      case None => None
      case Some(s) => Step(s, log[|log| - 1])
  }

  /** Net external funding of one record: + for a deposit, - for a withdrawal. */
  function Funding(t: Transaction): int {
    match t
    case Deposit(_, amount) => amount
    case Withdrawal(_, amount) => -amount
    case _ => 0
  }

  /** Deposits minus withdrawals over the log: the profit/loss baseline. */
  function NetDeposits(log: seq<Transaction>): int {
    if log == [] then 0 else NetDeposits(log[..|log| - 1]) + Funding(log[|log| - 1])
  }

  /** Where the point-in-time replay stops: the index of the first record
      stamped after `t`, or the length of the log when there is none. */
  function Cutoff(log: seq<Transaction>, t: nat): (r: nat)
    ensures r <= |log|
    ensures forall i :: 0 <= i < r ==> log[i].time <= t
    ensures r < |log| ==> log[r].time > t
  {
    if log == [] || log[0].time > t then 0 else 1 + Cutoff(log[1..], t)
  }

  /** The records stamped at or before `t`, wherever they stand in the log. */
  function NotAfter(log: seq<Transaction>, t: nat): seq<Transaction> {
    if log == [] then []
    else (if log[0].time <= t then [log[0]] else []) + NotAfter(log[1..], t)
  }

  /** The worth of `quantity` shares of `symbol` at the current price;
      an unquoted symbol is skipped, that is, worth 0. */
  function Line(symbol: string, quantity: int): int {
    match Market.SharePrice(symbol)
    case None => 0
    case Some(price) => price * quantity
  }

  /** The sum of `Line` over the entries of `h` named in `symbols`, in no particular order. */
  ghost function Worth(h: map<string, int>, symbols: set<string>): int
    requires symbols <= h.Keys
    decreases symbols
  {
    if symbols == {} then 0
    else
      var symbol :| symbol in symbols;
      Worth(h, symbols - {symbol}) + Line(symbol, h[symbol])
  }

  /** Portfolio value: cash plus every holding at its current price. */
  ghost function Valuation(s: State): int {
    s.cash + Worth(s.holdings, s.holdings.Keys)
  }

  /** Profit or loss: the value of `s` less the net funding recorded in `log`. */
  ghost function ProfitLoss(s: State, log: seq<Transaction>): int {
    Valuation(s) - NetDeposits(log)
  }

  /** Any entry can be taken out of the sum first: the order in which the
      holdings are visited does not change their worth. */
  lemma {:induction false} WorthRemove(h: map<string, int>, symbols: set<string>, symbol: string)
    requires symbols <= h.Keys && symbol in symbols
    ensures Worth(h, symbols) == Worth(h, symbols - {symbol}) + Line(symbol, h[symbol])
    decreases symbols
  {
    var first :| first in symbols && Worth(h, symbols) == Worth(h, symbols - {first}) + Line(first, h[first]);
    if first != symbol {
      var rest := symbols - {first} - {symbol};
      assert symbols - {symbol} - {first} == rest;
      WorthRemove(h, symbols - {first}, symbol);
      WorthRemove(h, symbols - {symbol}, first);
    }
  }

  /** With positive share counts and positive quotes, holdings never lower the value below cash. */
  lemma {:induction false} WorthNonNegative(h: map<string, int>, symbols: set<string>)
    requires symbols <= h.Keys && AllPositive(h)
    ensures Worth(h, symbols) >= 0
    decreases symbols
  {
    if symbols != {} {
      var symbol :| symbol in symbols;
      WorthRemove(h, symbols, symbol);
      WorthNonNegative(h, symbols - {symbol});
    }
  }

  /** A replay that succeeds on the whole log succeeds on every prefix of it,
      so no earlier sale met a missing entry. */
  lemma {:induction false} ReplayPrefix(log: seq<Transaction>, n: nat)
    requires Replay(log).Some? && n <= |log|
    ensures Replay(log[..n]).Some?
    decreases |log|
  {
    if n < |log| {
      var front := log[..|log| - 1];
      assert front[..n] == log[..n];
      ReplayPrefix(front, n);
    } else {
      assert log[..n] == log;
    }
  }

  /** Replaying one more record is one more `Step`. */
  lemma ReplayExtend(log: seq<Transaction>, t: Transaction)
    ensures Replay(log + [t]) == (match Replay(log) case None => None case Some(s) => Step(s, t))
  {
    assert (log + [t])[..|log|] == log;
  }

  /** What the account keeps true of its log and state: cash is not negative,
      every holding is positive, the log is chronological and well formed,
      and replaying it from an empty account gives back exactly `s`. */
  ghost predicate Consistent(log: seq<Transaction>, s: State) {
    && s.cash >= 0
    && AllPositive(s.holdings)
    && Chronological(log)
    && (forall i :: 0 <= i < |log| ==> Recorded(log[i]))
    && Replay(log) == Some(s)
  }

  /** Appending a well-formed record stamped no earlier than the last one,
      whose step leads to a state with non-negative cash and positive
      holdings, keeps the log consistent with that state. */
  lemma AppendRecord(log: seq<Transaction>, t: Transaction, s: State, s': State)
    requires Consistent(log, s) && NotBefore(log, t.time) && Recorded(t)
    requires Step(s, t) == Some(s') && s'.cash >= 0 && AllPositive(s'.holdings)
    ensures Consistent(log + [t], s')
  {
    ReplayExtend(log, t);
  }

  /** Net funding of one more record. */
  lemma NetDepositsExtend(log: seq<Transaction>, t: Transaction)
    ensures NetDeposits(log + [t]) == NetDeposits(log) + Funding(t)
  {
    assert (log + [t])[..|log|] == log;
  }

  /** In a chronological log whose first record is after `t`, no record is at or before `t`. */
  lemma {:induction false} NoneNotAfter(log: seq<Transaction>, t: nat)
    requires Chronological(log) && log != [] && log[0].time > t
    ensures NotAfter(log, t) == []
    decreases |log|
  {
    if |log| > 1 {
      assert log[1..][0] == log[1];
      NoneNotAfter(log[1..], t);
    }
  }

  /** Stopping at the first record stamped after `t` keeps exactly the
      records stamped at or before `t`, because the log is chronological. */
  lemma {:induction false} CutoffIsNotAfter(log: seq<Transaction>, t: nat)
    requires Chronological(log)
    ensures log[..Cutoff(log, t)] == NotAfter(log, t)
    decreases |log|
  {
    if log == [] {
    } else if log[0].time > t {
      NoneNotAfter(log, t);
    } else {
      CutoffIsNotAfter(log[1..], t);
      assert log[..Cutoff(log, t)] == [log[0]] + log[1..][..Cutoff(log[1..], t)];
    }
  }

  /** Every record of a chronological log is stamped at or before its last one. */
  lemma {:induction false} LastIsLatest(log: seq<Transaction>, t: nat)
    requires Chronological(log) && NotBefore(log, t)
    ensures forall i :: 0 <= i < |log| ==> log[i].time <= t
    decreases |log|
  {
    if log != [] {
      var front := log[..|log| - 1];
      assert front != [] ==> front[|front| - 1] == log[|log| - 2];
      LastIsLatest(front, log[|log| - 1].time);
    }
  }

  /** A report taken at or after the last record replays the whole log and
      therefore reports the current profit or loss. */
  lemma ReportAfterLastIsCurrent(log: seq<Transaction>, s: State, t: nat)
    requires Chronological(log) && NotBefore(log, t) && Replay(log) == Some(s)
    ensures Cutoff(log, t) == |log|
    ensures Replay(log[..Cutoff(log, t)]) == Some(s)
    ensures ProfitLoss(Replay(log[..Cutoff(log, t)]).value, log[..Cutoff(log, t)]) == ProfitLoss(s, log)
  {
    LastIsLatest(log, t);
    assert log[..|log|] == log;
  }

  /** Buying shares and then selling the same number at the same price
      restores cash and holdings exactly. */
  lemma BuyThenSellRestores(s: State, bought: nat, sold: nat, symbol: string, quantity: int, price: int)
    requires AllPositive(s.holdings) && quantity > 0
    ensures var buy := Buy(bought, price * quantity, symbol, quantity, price);
            var sell := Sell(sold, price * quantity, symbol, quantity, price);
            Step(s, buy).Some? && Step(Step(s, buy).value, sell) == Some(s)
  {
    var h := AddShares(s.holdings, symbol, quantity);
    assert RemoveShares(h, symbol, quantity) == s.holdings;
  }
}
