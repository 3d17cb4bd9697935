/**
 * The bank's ledger as a value: every client's account record, the rate
 * table and the messages published so far. Each operation of the bank is a
 * function from one ledger to the next; the class in module Banking is
 * proved to follow these functions step for step.
 */
module Ledger {
  import opened Wrappers
  import Transactions

  /** One client's record: a fixed id, a balance and the currency it is held in. */
  datatype Account = Account(id: int, balance: real, currency: string)

  /**
   * What the bank publishes to its observers, one value per message. The
   * first four are the error messages of the bank's operations (the
   * withdrawal and the transfer share one text); Processed is the report a
   * transaction publishes after it has called its bank operation, and it
   * carries every field that report prints.
   */
  datatype Event =
    | InsufficientFunds(clientId: int)
    | CurrencyMismatch
    | ExchangeInsufficientFunds(clientId: int)
    | UnknownCurrency
    | Processed(tx: Transactions.Transaction)

  datatype BankState = BankState(accounts: map<int, Account>, rates: map<string, real>, log: seq<Event>)

  /** The rate table the bank starts with: rates relative to the base currency USD. */
  const SeedRates: map<string, real> := map["USD" := 1.0, "EUR" := 0.85, "RUB" := 75.0]

  /** Every client is stored under its own id. */
  predicate KeyedById(accounts: map<int, Account>)
  {
    forall id :: id in accounts ==> accounts[id].id == id
  }

  /** Every known rate is positive, so dividing by it is defined. */
  predicate RatesPositive(rates: map<string, real>)
  {
    forall code :: code in rates ==> rates[code] > 0.0
  }

  predicate Valid(s: BankState)
  {
    KeyedById(s.accounts) && RatesPositive(s.rates)
  }

  /** No account appears or disappears, and those outside `ids` are untouched. */
  predicate SameExcept(m: map<int, Account>, m': map<int, Account>, ids: set<int>)
  {
    m'.Keys == m.Keys && forall k :: k in m && k !in ids ==> m'[k] == m[k]
  }

  function GetClient(s: BankState, id: int): (r: Option<Account>)
    requires Valid(s)
    ensures r.Some? <==> id in s.accounts
    ensures r.Some? ==> r.value.id == id
    ensures id in s.accounts ==> r == Some(s.accounts[id])
  {
    if id in s.accounts then Some(s.accounts[id]) else None
  }

  /** Registers a client under its id, replacing any client with that id. */
  function AddClient(s: BankState, a: Account): (r: BankState)
    requires Valid(s)
    ensures Valid(r) && r.rates == s.rates && r.log == s.log
    ensures GetClient(r, a.id) == Some(a)
    ensures forall id :: id != a.id ==> GetClient(r, id) == GetClient(s, id)
  {
    s.(accounts := s.accounts[a.id := a])
  }

  /** Publishes one message: it goes to the end of the log and nothing else changes. */
  function Notify(s: BankState, e: Event): (r: BankState)
    ensures Valid(s) ==> Valid(r)
    ensures r.accounts == s.accounts && r.rates == s.rates
    ensures |r.log| == |s.log| + 1 && r.log[..|s.log|] == s.log && r.log[|s.log|] == e
  {
    s.(log := s.log + [e])
  }

  /** Adds `amount` (whatever its sign) to a registered client's balance. */
  function Deposit(s: BankState, clientId: int, amount: real): (r: BankState)
    requires Valid(s)
    ensures Valid(r) && r.rates == s.rates && r.log == s.log
    ensures SameExcept(s.accounts, r.accounts, {clientId})
    ensures clientId !in s.accounts ==> r == s
    ensures clientId in s.accounts ==>
      && r.accounts[clientId].balance == s.accounts[clientId].balance + amount
      && r.accounts[clientId].currency == s.accounts[clientId].currency
  {
    if clientId in s.accounts then
      var c := s.accounts[clientId];
      s.(accounts := s.accounts[clientId := c.(balance := c.balance + amount)])
    else
      s
  }

  predicate WithdrawSucceeds(s: BankState, clientId: int, amount: real)
  {
    clientId in s.accounts && s.accounts[clientId].balance >= amount
  }

  /** Takes `amount` from a registered client when the balance covers it. */
  function Withdraw(s: BankState, clientId: int, amount: real): (r: BankState)
    requires Valid(s)
    ensures Valid(r) && r.rates == s.rates
    ensures SameExcept(s.accounts, r.accounts, {clientId})
    ensures clientId !in s.accounts ==> r == s
    ensures WithdrawSucceeds(s, clientId, amount) ==>
      && r.log == s.log
      && r.accounts[clientId].balance == s.accounts[clientId].balance - amount
      && r.accounts[clientId].balance >= 0.0
      && r.accounts[clientId].currency == s.accounts[clientId].currency
    ensures clientId in s.accounts && !WithdrawSucceeds(s, clientId, amount) ==>
      r.accounts == s.accounts && r.log == s.log + [InsufficientFunds(clientId)]
  {
    if clientId in s.accounts then
      var c := s.accounts[clientId];
      if c.balance >= amount then
        s.(accounts := s.accounts[clientId := c.(balance := c.balance - amount)])
      else
        Notify(s, InsufficientFunds(clientId))
    else
      s
  }

  predicate TransferSucceeds(s: BankState, senderId: int, receiverId: int, amount: real)
  {
    senderId in s.accounts && receiverId in s.accounts && s.accounts[senderId].balance >= amount
  }

  /**
   * Moves `amount`, unconverted, from the sender to the receiver when the
   * sender's balance covers it. The receiver is credited after the sender
   * is debited, so a transfer to oneself nets to nothing.
   */
  function TransferFunds(s: BankState, senderId: int, receiverId: int, amount: real): (r: BankState)
    requires Valid(s)
    ensures Valid(r) && r.rates == s.rates
    ensures SameExcept(s.accounts, r.accounts, {senderId, receiverId})
    ensures senderId !in s.accounts || receiverId !in s.accounts ==> r == s
    ensures senderId in s.accounts && receiverId in s.accounts && !TransferSucceeds(s, senderId, receiverId, amount) ==>
      r.accounts == s.accounts && r.log == s.log + [InsufficientFunds(senderId)]
    ensures TransferSucceeds(s, senderId, receiverId, amount) ==>
      && r.log == s.log
      && r.accounts[senderId].currency == s.accounts[senderId].currency
      && r.accounts[receiverId].currency == s.accounts[receiverId].currency
    ensures TransferSucceeds(s, senderId, receiverId, amount) && senderId != receiverId ==>
      && r.accounts[senderId].balance == s.accounts[senderId].balance - amount
      && r.accounts[senderId].balance >= 0.0
      && r.accounts[receiverId].balance == s.accounts[receiverId].balance + amount
    ensures TransferSucceeds(s, senderId, receiverId, amount) && senderId == receiverId ==>
      r.accounts == s.accounts
  {
    if senderId !in s.accounts || receiverId !in s.accounts then
      s
    else
      var sender := s.accounts[senderId];
      if sender.balance >= amount then
        var debited := s.accounts[senderId := sender.(balance := sender.balance - amount)];
        var receiver := debited[receiverId];
        s.(accounts := debited[receiverId := receiver.(balance := receiver.balance + amount)])
      else
        Notify(s, InsufficientFunds(senderId))
  }

  predicate ExchangeSucceeds(s: BankState, clientId: int, fromCurrency: string, toCurrency: string, amount: real)
  {
    && clientId in s.accounts
    && s.accounts[clientId].currency == fromCurrency
    && s.accounts[clientId].balance >= amount
    && fromCurrency in s.rates
    && toCurrency in s.rates
  }

  /** The amount in `toCurrency` that `amount` of `fromCurrency` buys: via the base currency. */
  function Converted(rates: map<string, real>, fromCurrency: string, toCurrency: string, amount: real): real
    requires RatesPositive(rates) && fromCurrency in rates && toCurrency in rates
  {
    (amount / rates[fromCurrency]) * rates[toCurrency]
  }

  /**
   * Converts `amount` of a client's holding from `fromCurrency` to
   * `toCurrency` and re-denominates the whole account in `toCurrency`.
   * The checks run in a fixed order (currency, then funds, then rates) and
   * the first that fails publishes its message and changes nothing else.
   */
  function ExchangeCurrency(s: BankState, clientId: int, fromCurrency: string, toCurrency: string, amount: real): (r: BankState)
    requires Valid(s)
    ensures Valid(r) && r.rates == s.rates
    ensures SameExcept(s.accounts, r.accounts, {clientId})
    ensures clientId !in s.accounts ==> r == s
    ensures clientId in s.accounts && s.accounts[clientId].currency != fromCurrency ==>
      r.accounts == s.accounts && r.log == s.log + [CurrencyMismatch]
    ensures clientId in s.accounts && s.accounts[clientId].currency == fromCurrency && s.accounts[clientId].balance < amount ==>
      r.accounts == s.accounts && r.log == s.log + [ExchangeInsufficientFunds(clientId)]
    ensures (&& clientId in s.accounts && s.accounts[clientId].currency == fromCurrency
             && s.accounts[clientId].balance >= amount
             && (fromCurrency !in s.rates || toCurrency !in s.rates)) ==>
      r.accounts == s.accounts && r.log == s.log + [UnknownCurrency]
    ensures ExchangeSucceeds(s, clientId, fromCurrency, toCurrency, amount) ==>
      && r.log == s.log
      && r.accounts[clientId].currency == toCurrency
      && r.accounts[clientId].balance
         == s.accounts[clientId].balance - amount + Converted(s.rates, fromCurrency, toCurrency, amount)
  {
    if clientId !in s.accounts then
      s
    else
      var c := s.accounts[clientId];
      if c.currency != fromCurrency then
        Notify(s, CurrencyMismatch)
      else if c.balance < amount then
        Notify(s, ExchangeInsufficientFunds(clientId))
      else if fromCurrency !in s.rates || toCurrency !in s.rates then
        Notify(s, UnknownCurrency)
      else
        var converted := Converted(s.rates, fromCurrency, toCurrency, amount);
        var debited := c.(balance := c.balance - amount);
        s.(accounts := s.accounts[clientId := debited.(balance := debited.balance + converted, currency := toCurrency)])
  }

  /** The ledger after an exchange whose checks all pass, written out. */
  lemma ExchangeResult(s: BankState, clientId: int, fromCurrency: string, toCurrency: string, amount: real)
    requires Valid(s) && ExchangeSucceeds(s, clientId, fromCurrency, toCurrency, amount)
    ensures ExchangeCurrency(s, clientId, fromCurrency, toCurrency, amount)
         == s.(accounts := s.accounts[clientId := Account(clientId,
                 s.accounts[clientId].balance - amount + Converted(s.rates, fromCurrency, toCurrency, amount), toCurrency)])
  {
  }

  /**
   * An exchange is all or nothing: either every check passes, nothing is
   * published and the account is re-denominated, or the accounts are exactly
   * as before and one error message is published.
   */
  lemma ExchangeAllOrNothing(s: BankState, clientId: int, fromCurrency: string, toCurrency: string, amount: real)
    requires Valid(s) && clientId in s.accounts
    ensures var r := ExchangeCurrency(s, clientId, fromCurrency, toCurrency, amount);
      if ExchangeSucceeds(s, clientId, fromCurrency, toCurrency, amount) then
        r.log == s.log && r.accounts[clientId].currency == toCurrency
      else
        r.accounts == s.accounts && |r.log| == |s.log| + 1 && r.log[..|s.log|] == s.log
        && !r.log[|s.log|].Processed?
  {
  }

  /**
   * The exchanged part keeps its value in the base currency: what is
   * credited, divided by the target rate, equals what is debited, divided by
   * the source rate.
   */
  lemma ExchangeKeepsBaseValue(s: BankState, clientId: int, fromCurrency: string, toCurrency: string, amount: real)
    requires Valid(s) && ExchangeSucceeds(s, clientId, fromCurrency, toCurrency, amount)
    ensures var r := ExchangeCurrency(s, clientId, fromCurrency, toCurrency, amount);
      (r.accounts[clientId].balance - (s.accounts[clientId].balance - amount)) / s.rates[toCurrency]
        == amount / s.rates[fromCurrency]
  {
    var rf, rt := s.rates[fromCurrency], s.rates[toCurrency];
    assert (amount / rf) * rt / rt == amount / rf;
  }

  /** Exchanging a currency into itself leaves the account exactly as it was. */
  lemma ExchangeSameCurrency(s: BankState, clientId: int, code: string, amount: real)
    requires Valid(s) && ExchangeSucceeds(s, clientId, code, code, amount)
    ensures ExchangeCurrency(s, clientId, code, code, amount) == s
  {
    var rate := s.rates[code];
    assert (amount / rate) * rate == amount;
    var r := ExchangeCurrency(s, clientId, code, code, amount);
    assert r.accounts[clientId] == s.accounts[clientId];
    assert r.accounts == s.accounts;
  }

  /**
   * With the seeded rates, a client holding 1000 USD who exchanges 100 USD
   * into RUB ends with 1000 - 100 + 100 * 75 = 8400 RUB.
   */
  lemma ExchangeAtSeedRates(accounts: map<int, Account>, log: seq<Event>)
    requires 1 in accounts && accounts[1] == Account(1, 1000.0, "USD") && KeyedById(accounts)
    ensures var r := ExchangeCurrency(BankState(accounts, SeedRates, log), 1, "USD", "RUB", 100.0);
      r.accounts[1] == Account(1, 8400.0, "RUB") && r.log == log
  {
    var s := BankState(accounts, SeedRates, log);
    assert RatesPositive(SeedRates);
    assert Converted(SeedRates, "USD", "RUB", 100.0) == 7500.0;
  }

  /** A successful withdrawal never leaves the client below zero, whatever it held before. */
  lemma WithdrawNeverNegative(s: BankState, clientId: int, amount: real)
    requires Valid(s) && WithdrawSucceeds(s, clientId, amount)
    ensures Withdraw(s, clientId, amount).accounts[clientId].balance >= 0.0
  {
  }

  /** A successful transfer to another client never leaves the sender below zero. */
  lemma TransferNeverNegative(s: BankState, senderId: int, receiverId: int, amount: real)
    requires Valid(s) && TransferSucceeds(s, senderId, receiverId, amount) && senderId != receiverId
    ensures TransferFunds(s, senderId, receiverId, amount).accounts[senderId].balance >= 0.0
  {
  }

  /**
   * The amount is not sign-checked: a negative transfer that the sender
   * "covers" credits the sender and can drive the receiver below zero.
   */
  lemma NegativeTransferOverdrawsReceiver()
    ensures var s := BankState(map[1 := Account(1, 0.0, "USD"), 2 := Account(2, 0.0, "USD")], SeedRates, []);
      Valid(s) && TransferSucceeds(s, 1, 2, -5.0)
      && TransferFunds(s, 1, 2, -5.0).accounts[2].balance == -5.0
  {
    var s := BankState(map[1 := Account(1, 0.0, "USD"), 2 := Account(2, 0.0, "USD")], SeedRates, []);
    assert Valid(s);
  }
}
