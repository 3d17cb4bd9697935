/**
 * The sum of all balances in the ledger, and how each money-moving
 * operation changes it: a deposit adds its amount, a withdrawal that goes
 * through takes its amount away, a transfer leaves the sum as it was, and
 * an exchange that goes through swaps the exchanged amount for its
 * converted value (the sum mixes currencies, so only the first three are
 * money in the usual sense).
 */
module Conservation {
  import opened Transactions
  import opened Ledger
  import Dispatch

  /** The sum of the balances of all accounts, taken in an arbitrary order. */
  ghost function Total(m: map<int, Account>): real
    decreases |m|
  {
    if m == map[] then 0.0
    else
      NonEmptyHasKey(m);
      var k :| k in m;
      m[k].balance + Total(m - {k})
  }

  lemma NonEmptyHasKey(m: map<int, Account>)
    ensures m == map[] || exists k :: k in m
  {
    if !(exists k :: k in m) {
      assert m.Keys == {};
    }
  }

  /** The sum does not depend on the order: any account can be taken out first. */
  lemma {:induction false} TotalRemove(m: map<int, Account>, k: int)
    requires k in m
    ensures Total(m) == m[k].balance + Total(m - {k})
    decreases |m|
  {
    var x :| x in m && Total(m) == m[x].balance + Total(m - {x});
    if x != k {
      TotalRemove(m - {x}, k);
      TotalRemove(m - {k}, x);
      assert m - {x} - {k} == m - {k} - {x};
    }
  }

  /** Replacing one account changes the sum by the difference of the two balances. */
  lemma TotalUpdate(m: map<int, Account>, k: int, a: Account)
    requires k in m
    ensures Total(m[k := a]) == Total(m) - m[k].balance + a.balance
  {
    TotalRemove(m, k);
    TotalRemove(m[k := a], k);
    assert m[k := a] - {k} == m - {k};
  }

  lemma DepositTotal(s: BankState, clientId: int, amount: real)
    requires Valid(s)
    ensures Total(Ledger.Deposit(s, clientId, amount).accounts)
         == Total(s.accounts) + (if clientId in s.accounts then amount else 0.0)
  {
    if clientId in s.accounts {
      var c := s.accounts[clientId];
      TotalUpdate(s.accounts, clientId, c.(balance := c.balance + amount));
    }
  }

  lemma WithdrawTotal(s: BankState, clientId: int, amount: real)
    requires Valid(s)
    ensures Total(Withdraw(s, clientId, amount).accounts)
         == Total(s.accounts) - (if WithdrawSucceeds(s, clientId, amount) then amount else 0.0)
  {
    if WithdrawSucceeds(s, clientId, amount) {
      var c := s.accounts[clientId];
      TotalUpdate(s.accounts, clientId, c.(balance := c.balance - amount));
    }
  }

  /** A transfer, successful or not, never creates or destroys money. */
  lemma TransferTotal(s: BankState, senderId: int, receiverId: int, amount: real)
    requires Valid(s)
    ensures Total(TransferFunds(s, senderId, receiverId, amount).accounts) == Total(s.accounts)
  {
    if TransferSucceeds(s, senderId, receiverId, amount) {
      var sender := s.accounts[senderId];
      var debited := s.accounts[senderId := sender.(balance := sender.balance - amount)];
      var receiver := debited[receiverId];
      TotalUpdate(s.accounts, senderId, sender.(balance := sender.balance - amount));
      TotalUpdate(debited, receiverId, receiver.(balance := receiver.balance + amount));
    }
  }

  lemma ExchangeTotal(s: BankState, clientId: int, fromCurrency: string, toCurrency: string, amount: real)
    requires Valid(s)
    ensures Total(ExchangeCurrency(s, clientId, fromCurrency, toCurrency, amount).accounts)
         == Total(s.accounts)
            + (if ExchangeSucceeds(s, clientId, fromCurrency, toCurrency, amount)
               then Converted(s.rates, fromCurrency, toCurrency, amount) - amount else 0.0)
  {
    if ExchangeSucceeds(s, clientId, fromCurrency, toCurrency, amount) {
      var c := s.accounts[clientId];
      var converted := Converted(s.rates, fromCurrency, toCurrency, amount);
      ExchangeResult(s, clientId, fromCurrency, toCurrency, amount);
      TotalUpdate(s.accounts, clientId, Account(clientId, c.balance - amount + converted, toCurrency));
    }
  }

  /** How much a transaction adds to the sum of balances when processed in state `s`. */
  function Flow(s: BankState, tx: Transaction): real
    requires Valid(s)
  {
    match tx
    case Deposit(id, amount) => if id in s.accounts then amount else 0.0
    case Withdrawal(id, amount) => if WithdrawSucceeds(s, id, amount) then -amount else 0.0
    case FundsTransfer(_, _, _) => 0.0
    case CurrencyExchange(id, fromCurrency, toCurrency, amount) =>
      if ExchangeSucceeds(s, id, fromCurrency, toCurrency, amount)
      then Converted(s.rates, fromCurrency, toCurrency, amount) - amount else 0.0
  }

  /**
   * Processing a transaction changes the sum of balances by exactly its
   * flow: deposits add, successful withdrawals subtract, transfers are
   * neutral, and failed operations change nothing.
   */
  lemma ApplyTotal(s: BankState, tx: Transaction)
    requires Valid(s)
    ensures Total(Dispatch.Apply(s, tx).accounts) == Total(s.accounts) + Flow(s, tx)
  {
    Dispatch.ApplyUnfold(s, tx);
    match tx
    case Deposit(id, amount) => DepositTotal(s, id, amount);
    case Withdrawal(id, amount) => WithdrawTotal(s, id, amount);
    case FundsTransfer(senderId, receiverId, amount) => TransferTotal(s, senderId, receiverId, amount);
    case CurrencyExchange(id, fromCurrency, toCurrency, amount) =>
      ExchangeTotal(s, id, fromCurrency, toCurrency, amount);
  }
}
