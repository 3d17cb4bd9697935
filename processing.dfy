/**
 * Applying queued transactions to a bank: the dispatch of one transaction
 * to its bank operation followed by its report, and a single cashier that
 * drains the queue until nothing is pending.
 */
module Processing {
  import opened Wrappers
  import opened Transactions
  import L = Ledger
  import D = Dispatch
  import opened Banking

  /** Hands one transaction to the bank operation its variant names. */
  method Perform(tx: Transaction, bank: Bank)
    requires bank.Valid()
    modifies bank`log, bank.clients.Values
    ensures bank.Valid()
    ensures bank.State() == D.Operation(old(bank.State()), tx)
  {
    match tx {
      case Deposit(clientId, amount) =>
        bank.Deposit(clientId, amount);
      case Withdrawal(clientId, amount) =>
        bank.Withdraw(clientId, amount);
      case FundsTransfer(clientId, receiverId, amount) =>
        bank.TransferFunds(clientId, receiverId, amount);
      case CurrencyExchange(clientId, fromCurrency, toCurrency, amount) =>
        bank.ExchangeCurrency(clientId, fromCurrency, toCurrency, amount);
    }
  }

  /**
   * Processes one transaction against the bank. It touches only the client
   * records and the log (never the registry, the rates or the queue), and
   * its effect is exactly Dispatch.Apply.
   */
  method Process(tx: Transaction, bank: Bank)
    requires bank.Valid()
    modifies bank`log, bank.clients.Values
    ensures bank.Valid()
    ensures bank.State() == D.Apply(old(bank.State()), tx)
  {
    ghost var s0 := bank.State();
    Perform(tx, bank);
    bank.NotifyObservers(L.Processed(tx));
    D.ApplyUnfold(s0, tx);
  }

  /**
   * One turn of a cashier: take the transaction at the head of the queue,
   * if there is one, and process it.
   */
  method ServeOne(bank: Bank)
    requires bank.Valid()
    modifies bank`log, bank`queue, bank.clients.Values
    ensures bank.Valid() && bank.clients == old(bank.clients)
    ensures old(bank.queue) == [] ==> bank.queue == [] && bank.State() == old(bank.State())
    ensures old(bank.queue) != [] ==>
      && bank.queue == old(bank.queue)[1..]
      && bank.State() == D.Apply(old(bank.State()), old(bank.queue)[0])
    ensures D.Run(bank.State(), bank.queue) == D.Run(old(bank.State()), old(bank.queue))
  {
    ghost var s0, pending := bank.State(), bank.queue;
    var tx := bank.GetTransaction();
    if tx.Some? {
      Process(tx.value, bank);
      D.RunUnfold(s0, pending);
    }
  }

  /**
   * One cashier working after the bank has stopped accepting work: it takes
   * transactions from the head of the queue and processes them until the
   * queue is empty. The final ledger is that of processing the old queue
   * front to back, so every queued transaction is applied exactly once, in
   * queue order (Dispatch.RunReports).
   */
  method Drain(bank: Bank)
    requires bank.Valid()
    modifies bank`log, bank`queue, bank.clients.Values
    ensures bank.Valid() && bank.queue == []
    ensures bank.State() == D.Run(old(bank.State()), old(bank.queue))
  {
    var empty := bank.IsTransactionQueueEmpty();
    while !empty
      invariant bank.Valid() && bank.clients == old(bank.clients)
      invariant empty <==> bank.queue == []
      invariant D.Run(bank.State(), bank.queue) == D.Run(old(bank.State()), old(bank.queue))
      decreases |bank.queue|
    {
      ServeOne(bank);
      empty := bank.IsTransactionQueueEmpty();
    }
  }
}
