/**
 * What processing a transaction does to the ledger: each variant calls its
 * one bank operation and then publishes its report. Run is the sequential
 * drain of a queue, front to back.
 */
module Dispatch {
  import opened Transactions
  import opened Ledger

  /** The transactions whose reports appear in `log`, in the order they were published. */
  function Reports(log: seq<Event>): seq<Transaction>
  {
    if log == [] then []
    else
      var last := log[|log| - 1];
      Reports(log[..|log| - 1]) + (if last.Processed? then [last.tx] else [])
  }

  lemma ReportsSnoc(log: seq<Event>, e: Event)
    ensures Reports(log + [e]) == Reports(log) + (if e.Processed? then [e.tx] else [])
  {
    assert (log + [e])[..|log|] == log;
  }

  /** The bank operation a transaction calls, before its report. */
  function Operation(s: BankState, tx: Transaction): (r: BankState)
    requires Valid(s)
    ensures Valid(r) && r.rates == s.rates && r.accounts.Keys == s.accounts.Keys
  {
    match tx
    case Deposit(id, amount) => Ledger.Deposit(s, id, amount)
    case Withdrawal(id, amount) => Withdraw(s, id, amount)
    case FundsTransfer(senderId, receiverId, amount) => TransferFunds(s, senderId, receiverId, amount)
    case CurrencyExchange(id, fromCurrency, toCurrency, amount) => ExchangeCurrency(s, id, fromCurrency, toCurrency, amount)
  }

  /** A bank operation never publishes a report: its messages are all errors. */
  lemma OperationPublishesNoReport(s: BankState, tx: Transaction)
    requires Valid(s)
    ensures Reports(Operation(s, tx).log) == Reports(s.log)
  {
    var r := Operation(s, tx);
    match tx
    case Deposit(_, _) =>
    case Withdrawal(id, _) =>
      if r.log != s.log { ReportsSnoc(s.log, InsufficientFunds(id)); }
    case FundsTransfer(id, _, _) =>
      if r.log != s.log { ReportsSnoc(s.log, InsufficientFunds(id)); }
    case CurrencyExchange(id, _, _, _) =>
      if r.log != s.log {
        ReportsSnoc(s.log, CurrencyMismatch);
        ReportsSnoc(s.log, ExchangeInsufficientFunds(id));
        ReportsSnoc(s.log, UnknownCurrency);
      }
  }

  /** Processes one transaction: its bank operation, then its report. */
  function Apply(s: BankState, tx: Transaction): (r: BankState)
    requires Valid(s)
    ensures Valid(r) && r.rates == s.rates && r.accounts.Keys == s.accounts.Keys
    ensures |r.log| > |s.log| && r.log[|r.log| - 1] == Processed(tx)
  {
    Notify(Operation(s, tx), Processed(tx))
  }

  /**
   * Every message the operation published comes before the report, and the
   * report is the only one published for this transaction.
   */
  lemma ApplyReports(s: BankState, tx: Transaction)
    requires Valid(s)
    ensures Reports(Apply(s, tx).log) == Reports(s.log) + [tx]
  {
    var t := Operation(s, tx);
    OperationPublishesNoReport(s, tx);
    ReportsSnoc(t.log, Processed(tx));
  }

  lemma ApplyUnfold(s: BankState, tx: Transaction)
    requires Valid(s)
    ensures Apply(s, tx) == Notify(Operation(s, tx), Processed(tx))
  {
  }

  /** Processes a queue of transactions front to back. */
  function Run(s: BankState, txs: seq<Transaction>): (r: BankState)
    requires Valid(s)
    ensures Valid(r) && r.rates == s.rates && r.accounts.Keys == s.accounts.Keys
    decreases |txs|
  {
    if txs == [] then s else Run(Apply(s, txs[0]), txs[1..])
  }

  lemma RunUnfold(s: BankState, txs: seq<Transaction>)
    requires Valid(s) && txs != []
    ensures Run(s, txs) == Run(Apply(s, txs[0]), txs[1..])
  {
  }

  /**
   * Draining a queue processes every queued transaction exactly once and
   * in queue order: the reports it publishes are the queue itself.
   */
  lemma {:induction false} RunReports(s: BankState, txs: seq<Transaction>)
    requires Valid(s)
    ensures Reports(Run(s, txs).log) == Reports(s.log) + txs
    decreases |txs|
  {
    if txs != [] {
      var t := Apply(s, txs[0]);
      assert Reports(t.log) == Reports(s.log) + [txs[0]] by { ApplyReports(s, txs[0]); }
      assert Reports(Run(t, txs[1..]).log) == Reports(t.log) + txs[1..] by { RunReports(t, txs[1..]); }
      assert Run(s, txs) == Run(t, txs[1..]) by { RunUnfold(s, txs); }
      assert [txs[0]] + txs[1..] == txs;
    }
  }

  /** Draining two queues one after the other is draining their concatenation. */
  lemma {:induction false} RunAppend(s: BankState, a: seq<Transaction>, b: seq<Transaction>)
    requires Valid(s)
    ensures Run(s, a + b) == Run(Run(s, a), b)
    decreases |a|
  {
    if a != [] {
      assert (a + b)[1..] == a[1..] + b;
      RunAppend(Apply(s, a[0]), a[1..], b);
    } else {
      assert a + b == b;
    }
  }

  /**
   * Processing a deposit publishes only its report, even for an unknown
   * client; the amount is not sign-checked, so a negative one lowers the
   * balance.
   */
  lemma DepositProcess(s: BankState, clientId: int, amount: real)
    requires Valid(s)
    ensures var r := Apply(s, Deposit(clientId, amount));
      && r.log == s.log + [Processed(Deposit(clientId, amount))]
      && SameExcept(s.accounts, r.accounts, {clientId})
      && (clientId in s.accounts ==>
            && r.accounts[clientId].balance == s.accounts[clientId].balance + amount
            && r.accounts[clientId].currency == s.accounts[clientId].currency)
      && (clientId in s.accounts && amount < 0.0 ==>
            r.accounts[clientId].balance < s.accounts[clientId].balance)
  {
  }

  /**
   * Processing a withdrawal: on success only the report is published; when
   * funds are short the error and then the report are published and no
   * balance changes; an unknown client gets the report alone.
   */
  lemma WithdrawalProcess(s: BankState, clientId: int, amount: real)
    requires Valid(s)
    ensures var tx := Withdrawal(clientId, amount); var r := Apply(s, tx);
      && SameExcept(s.accounts, r.accounts, {clientId})
      && (WithdrawSucceeds(s, clientId, amount) ==>
            && r.log == s.log + [Processed(tx)]
            && r.accounts[clientId].balance == s.accounts[clientId].balance - amount
            && r.accounts[clientId].balance >= 0.0)
      && (clientId in s.accounts && !WithdrawSucceeds(s, clientId, amount) ==>
            r.accounts == s.accounts && r.log == s.log + [InsufficientFunds(clientId), Processed(tx)])
      && (clientId !in s.accounts ==>
            r.accounts == s.accounts && r.log == s.log + [Processed(tx)])
  {
  }

  /**
   * Processing a transfer moves the raw amount, whatever currencies the two
   * accounts hold; a failed or impossible transfer still publishes its report.
   */
  lemma TransferProcess(s: BankState, senderId: int, receiverId: int, amount: real)
    requires Valid(s)
    ensures var tx := FundsTransfer(senderId, receiverId, amount); var r := Apply(s, tx);
      && SameExcept(s.accounts, r.accounts, {senderId, receiverId})
      && (TransferSucceeds(s, senderId, receiverId, amount) && senderId != receiverId ==>
            && r.log == s.log + [Processed(tx)]
            && r.accounts[senderId].balance + r.accounts[receiverId].balance
               == s.accounts[senderId].balance + s.accounts[receiverId].balance
            && r.accounts[receiverId].balance == s.accounts[receiverId].balance + amount
            && r.accounts[receiverId].currency == s.accounts[receiverId].currency)
      && (senderId in s.accounts && receiverId in s.accounts && !TransferSucceeds(s, senderId, receiverId, amount) ==>
            r.accounts == s.accounts && r.log == s.log + [InsufficientFunds(senderId), Processed(tx)])
      && (senderId !in s.accounts || receiverId !in s.accounts ==>
            r.accounts == s.accounts && r.log == s.log + [Processed(tx)])
  {
  }

  /**
   * Processing an exchange: a failed check publishes its one error and then
   * the report, with the accounts unchanged; a success publishes the report
   * alone.
   */
  lemma ExchangeProcess(s: BankState, clientId: int, fromCurrency: string, toCurrency: string, amount: real)
    requires Valid(s)
    ensures var tx := CurrencyExchange(clientId, fromCurrency, toCurrency, amount); var r := Apply(s, tx);
      && SameExcept(s.accounts, r.accounts, {clientId})
      && (ExchangeSucceeds(s, clientId, fromCurrency, toCurrency, amount) ==>
            && r.log == s.log + [Processed(tx)]
            && r.accounts[clientId].currency == toCurrency)
      && (clientId in s.accounts && !ExchangeSucceeds(s, clientId, fromCurrency, toCurrency, amount) ==>
            && r.accounts == s.accounts
            && |r.log| == |s.log| + 2 && r.log[..|s.log|] == s.log
            && !r.log[|s.log|].Processed? && r.log[|s.log| + 1] == Processed(tx))
      && (clientId !in s.accounts ==>
            r.accounts == s.accounts && r.log == s.log + [Processed(tx)])
  {
  }

  /**
   * The sample run: clients 1 (1000 USD) and 2 (2000 EUR) at the seeded
   * rates; a deposit of 500 to 1, a withdrawal of 300 from 2, an exchange of
   * 100 USD to RUB by 1 and a transfer of 200 from 1 to 2. Client 1 ends
   * with 1500 - 100 + 7500 - 200 = 8700 RUB, client 2 with
   * 2000 - 300 + 200 = 1900 EUR: the transfer is not converted.
   */
  const SampleQueue := [Deposit(1, 500.0), Withdrawal(2, 300.0), CurrencyExchange(1, "USD", "RUB", 100.0), FundsTransfer(1, 2, 200.0)]

  /** The sample bank before the run, and after each of its four transactions. */
  const Sample0 := BankState(map[1 := Account(1, 1000.0, "USD"), 2 := Account(2, 2000.0, "EUR")], SeedRates, [])
  const Sample1 := BankState(map[1 := Account(1, 1500.0, "USD"), 2 := Account(2, 2000.0, "EUR")], SeedRates,
                             Sample0.log + [Processed(SampleQueue[0])])
  const Sample2 := BankState(map[1 := Account(1, 1500.0, "USD"), 2 := Account(2, 1700.0, "EUR")], SeedRates,
                             Sample1.log + [Processed(SampleQueue[1])])
  const Sample3 := BankState(map[1 := Account(1, 8900.0, "RUB"), 2 := Account(2, 1700.0, "EUR")], SeedRates,
                             Sample2.log + [Processed(SampleQueue[2])])
  const Sample4 := BankState(map[1 := Account(1, 8700.0, "RUB"), 2 := Account(2, 1900.0, "EUR")], SeedRates,
                             Sample3.log + [Processed(SampleQueue[3])])

  lemma SampleDeposit()
    ensures Valid(Sample0) && Apply(Sample0, SampleQueue[0]) == Sample1
  {
  }

  lemma SampleWithdrawal()
    ensures Valid(Sample1) && Apply(Sample1, SampleQueue[1]) == Sample2
  {
  }

  lemma SampleExchange()
    ensures Valid(Sample2) && Apply(Sample2, SampleQueue[2]) == Sample3
  {
    assert Converted(SeedRates, "USD", "RUB", 100.0) == 7500.0;
  }

  lemma SampleTransfer()
    ensures Valid(Sample3) && Apply(Sample3, SampleQueue[3]) == Sample4
  {
  }

  lemma SampleRun()
    ensures Valid(Sample0)
    ensures Run(Sample0, SampleQueue).accounts == map[1 := Account(1, 8700.0, "RUB"), 2 := Account(2, 1900.0, "EUR")]
    ensures Reports(Run(Sample0, SampleQueue).log) == SampleQueue
  {
    SampleDeposit();
    SampleWithdrawal();
    SampleExchange();
    SampleTransfer();
    var q := SampleQueue;
    assert Run(Sample4, q[4..]) == Sample4;
    assert Run(Sample3, q[3..]) == Sample4 by { assert q[3..][1..] == q[4..]; }
    assert Run(Sample2, q[2..]) == Sample4 by { assert q[2..][1..] == q[3..]; }
    assert Run(Sample1, q[1..]) == Sample4 by { assert q[1..][1..] == q[2..]; }
    assert Run(Sample0, q) == Sample4;
    RunReports(Sample0, q);
  }
}
