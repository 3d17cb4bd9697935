# Bank ledger: a verified model

This project models the sequential ledger semantics of a small multi-threaded
bank written in Java. The bank keeps client accounts (id, balance, currency)
in a registry keyed by id, a table of exchange rates relative to USD, a FIFO
queue of pending transactions, and a list of observers that it notifies with
a text message on every error, after every processed transaction and on
every rate update.
Cashier threads take transactions off the queue and process them. There are
four kinds: deposit, withdrawal, transfer between clients and currency
exchange. Each one calls one bank operation and then publishes a report.

Each `synchronized` block of the source is one atomic step here. The model has these parts:

- `Clients.Client` (client.dfy) is the mutable account record. The id is a
  `const`. `SetBalance` and `SetCurrency` each modify only their own field.
  The getters change nothing, so they are functions that read one field.
- `Transactions.Transaction` (transaction.dfy) is the closed set of
  transactions, one datatype. The Java abstract class and its four
  subclasses become its four variants. Each variant carries `clientId` (the
  sender, for a transfer) and the fields of its constructor. A datatype
  value is immutable and has exactly one variant. So the constructors
  store their arguments unchanged, processing can never alter a
  transaction, and every transaction is handled by its own case.
- `Ledger` (ledger.dfy) is the bank as a value: accounts, rates and the
  published messages. It has one function per bank operation. Observers are
  replaced by an append-only log of `Event` values. `Processed(tx)` stands
  for the report a transaction prints after its operation. It carries every
  field that report prints.
- `Banking.Bank` (bank.dfy) is the bank as a class. It has a map of client
  objects, a rate map, a `seq` queue and a `seq` log. Every operation is
  proved to change `State()` exactly as the matching `Ledger` function says.
  Each frame (`modifies`) says which fields and client objects the
  operation may touch. `IsTransactionQueueEmpty` changes nothing and is a
  function of the queue.
- `Dispatch` (dispatch.dfy) holds what processing does, as functions:
  `Apply` processes one transaction and `Run` processes a queue front to
  back. It also has the per-variant lemmas, the FIFO and exactly-once lemma
  `RunReports`, and the sample run of `src/Main.java`.
- `Processing` (processing.dfy) holds the imperative dispatch `Process` and
  `Drain`. `Drain` is a single cashier that empties the queue. Both are
  proved against `Dispatch`.
- `Conservation` (conservation.dfy) holds the sum of all balances and how
  each operation changes it.

Where the source is lax, the model keeps its behaviour:
- Amounts are never sign-checked.
- A bank operation on an unknown client publishes nothing. Only the
  transaction's report is published.
- A transfer moves the raw amount between accounts held in different
  currencies.

Balances and rates are Java `double`. Here they are `real`, so the
exchange formula and the sum laws hold exactly.

## Model

| member | source | states |
|---|---|---|
| `Clients.Client.constructor` | src/Client.java:7-11 | the new client holds exactly the given id, balance and currency |
| `Clients.Client.SetBalance` | src/Client.java:21-23 | the balance becomes the argument; the frame `this`balance` leaves id and currency untouched |
| `Clients.Client.SetCurrency` | src/Client.java:29-31 | the currency becomes the argument; the frame `this`currency` leaves id and balance untouched |
| `Clients.Client.GetId` | src/Client.java:13-15 | returns the id, which is a `const` and so is the constructor's |
| `Clients.Client.GetBalance` | src/Client.java:17-19 | returns the current balance and changes nothing (a function reading only `balance`) |
| `Clients.Client.GetCurrency` | src/Client.java:25-27 | returns the current currency and changes nothing (a function reading only `currency`) |
| `Clients.SetterHistory` | src/Client.java:7-31 | after construction and several setter calls, the getters return the last values set and the constructor's id |
| `Ledger.GetClient` | src/Bank.java:174-176 | a lookup finds a record exactly when the id is registered, and the record found is the registered one, carrying that id |
| `Ledger.Notify` | src/Bank.java:62-66 | publishing appends exactly the message at the end of the log and changes no account and no rate; a valid ledger stays valid |
| `Ledger.AddClient` | src/Bank.java:52-54 | afterwards the lookup of the client's id yields that client, whatever was registered under it before; every other lookup, the rates and the log are unchanged |
| `Ledger.Deposit` | src/Bank.java:86-95 | a registered client's balance grows by the amount, with the currency kept; an unknown id changes nothing; nothing is published and no other account changes |
| `Ledger.Withdraw` | src/Bank.java:97-108 | succeeds exactly when the balance covers the amount; on success the balance drops by the amount and is not negative, and nothing is published; otherwise the accounts stay as they were and one insufficient-funds message is published; an unknown id changes nothing |
| `Ledger.TransferFunds` | src/Bank.java:144-158 | an unknown sender or receiver changes nothing and publishes nothing; if the sender's balance is short, no balance changes and one message names the sender; on success the sender loses and the receiver gains the amount with both currencies kept, and a self-transfer changes nothing; every other account is untouched |
| `Ledger.ExchangeCurrency` | src/Bank.java:111-141 | the checks run in order (currency mismatch, then short balance, then missing rate for either currency) and the first that fails publishes its one message with the accounts unchanged; on success balance = old - amount + (amount / rateFrom) * rateTo and the currency becomes the target |
| `Ledger.ExchangeAllOrNothing` | src/Bank.java:115-138 | for a registered client, an exchange either passes every check and re-denominates the account with nothing published, or leaves all accounts as they were and publishes one error, which is never a report |
| `Ledger.ExchangeKeepsBaseValue` | src/Bank.java:133-137 | the credited amount and the debited amount have equal value in the base currency |
| `Ledger.ExchangeSameCurrency` | src/Bank.java:133-138 | a successful exchange of a currency into itself leaves the whole ledger unchanged |
| `Ledger.ExchangeAtSeedRates` | src/Bank.java:33-35 | with the seeded rates, 1000 USD exchanging 100 USD to RUB ends at 8400 RUB with nothing published |
| `Ledger.WithdrawNeverNegative` | src/Bank.java:101-102 | a successful withdrawal never leaves the client's balance below zero |
| `Ledger.TransferNeverNegative` | src/Bank.java:148-150 | a successful transfer to another client never leaves the sender's balance below zero |
| `Ledger.NegativeTransferOverdrawsReceiver` | src/Bank.java:149-152 | the amount is not sign-checked: a transfer of -5 between two empty accounts passes the check and leaves the receiver at -5 |
| `Conservation.DepositTotal` | src/Bank.java:92 | a deposit raises the sum of all balances by the amount when the client is registered, and otherwise leaves it unchanged |
| `Conservation.WithdrawTotal` | src/Bank.java:101-102 | a withdrawal lowers the sum of all balances by the amount exactly when it succeeds |
| `Conservation.TransferTotal` | src/Bank.java:148-153 | a transfer, successful or not, leaves the sum of all balances unchanged |
| `Conservation.ExchangeTotal` | src/Bank.java:133-137 | a successful exchange changes the sum by the converted amount minus the amount; a failed one changes nothing |
| `Conservation.ApplyTotal` | src/Transaction.java:9 | processing any transaction changes the sum of balances by exactly its flow: the deposited amount, minus a withdrawn amount, zero for a transfer, and the exchange difference |
| `Dispatch.Operation` | src/Transaction.java:9 | the bank operation a transaction calls keeps the ledger valid, the rates and the set of registered ids |
| `Dispatch.OperationPublishesNoReport` | src/Bank.java:86-158 | a bank operation never publishes a transaction report |
| `Dispatch.Apply` | src/Transaction.java:9 | processing publishes its own report last, after any error message of its operation; the rates and registered ids are kept |
| `Dispatch.ApplyReports` | src/Transaction.java:9 | processing one transaction adds exactly one report to the log, its own |
| `Dispatch.Run` | src/Cashier.java:16-20 | processing a queue front to back keeps the ledger valid, the rates and the registered ids |
| `Dispatch.RunReports` | src/Cashier.java:16-20 | draining a queue publishes exactly one report per queued transaction, in queue order |
| `Dispatch.RunAppend` | src/Cashier.java:16-20 | draining two batches one after the other equals draining their concatenation |
| `Dispatch.DepositProcess` | src/Deposit.java:12-13 | processing a deposit publishes only its report, even for an unknown client; the balance grows by the amount, and a negative amount lowers it |
| `Dispatch.WithdrawalProcess` | src/Withdrawal.java:12-13 | processing a withdrawal publishes the report alone on success or for an unknown client; when funds are short, it publishes the insufficient-funds error and then the report, with no balance changed |
| `Dispatch.TransferProcess` | src/FundsTransfer.java:14-15 | processing a transfer moves the raw amount whatever the two currencies and keeps the pair's summed balance; a failed or impossible transfer still publishes its report, after the error if funds were short |
| `Dispatch.ExchangeProcess` | src/CurrencyExchange.java:16-17 | processing an exchange publishes only the report on success or for an unknown client; a failed check publishes one error and then the report, with the accounts unchanged |
| `Dispatch.SampleRun` | src/Main.java:10-17 | at the seed rates, drained by one cashier, the sample clients and the four queued transactions end at 8700 RUB and 1900 EUR, and the reports list the four transactions in order |
| `Banking.Bank.constructor` | src/Bank.java:31-35 | a new bank has no clients, an empty queue and log, and the seeded rates |
| `Banking.Bank.AddClient` | src/Bank.java:52-54 | the registry maps the client's id to the client object, replacing any earlier one; the ledger view follows `Ledger.AddClient` |
| `Banking.Bank.GetClient` | src/Bank.java:174-176 | returns the object registered under the id, or null when there is none |
| `Banking.Bank.NotifyObservers` | src/Bank.java:62-66 | publishing appends exactly the message to the log |
| `Banking.Bank.EnqueueTransaction` | src/Bank.java:69-72 | the transaction joins the back of the queue |
| `Banking.Bank.IsTransactionQueueEmpty` | src/Bank.java:81-83 | true exactly when no transaction is pending; it reads only the queue |
| `Banking.Bank.GetTransaction` | src/Bank.java:74-79 | returns and removes the head of the queue; on an empty queue returns None and leaves the queue empty |
| `Banking.Bank.SetClientBalance` | src/Bank.java:92 | a registered client's setBalance changes that client's record in the ledger view and no other |
| `Banking.Bank.SetClientCurrency` | src/Bank.java:138 | a registered client's setCurrency changes that client's record in the ledger view and no other |
| `Banking.Bank.Redenominate` | src/Bank.java:136-138 | the debit, the credit of the converted amount and the currency switch together set the record to (old - amount + converted, target currency) |
| `Banking.Bank.Deposit` | src/Bank.java:86-95 | the new ledger view is `Ledger.Deposit` of the old one; only client objects are modified |
| `Banking.Bank.Withdraw` | src/Bank.java:97-108 | the new ledger view is `Ledger.Withdraw` of the old one |
| `Banking.Bank.ExchangeCurrency` | src/Bank.java:111-141 | the new ledger view is `Ledger.ExchangeCurrency` of the old one |
| `Banking.Bank.TransferFunds` | src/Bank.java:144-158 | the new ledger view is `Ledger.TransferFunds` of the old one |
| `Banking.RegisterThenLookUp` | src/Bank.java:52-54 | after registering a client its id looks it up, and registering another client with the same id replaces it |
| `Banking.QueueIsFifo` | src/Bank.java:69-83 | two enqueued transactions are taken out in the order they went in, and a third take on the empty queue yields None |
| `Processing.Perform` | src/Transaction.java:9 | each variant calls its own bank operation, and the bank's new ledger view is `Dispatch.Operation` of the old one |
| `Processing.Process` | src/Transaction.java:9 | processing touches only the client records and the log, never the registry, the rates or the queue, and its effect is `Dispatch.Apply` |
| `Processing.ServeOne` | src/Cashier.java:17-20 | one cashier turn removes the head of the queue and applies it, or does nothing on an empty queue |
| `Processing.Drain` | src/Cashier.java:16-20 | a single cashier empties the queue, and the final ledger is `Dispatch.Run` of the old queue |

## Left out

- Threads and locking are not modelled: the `synchronized` blocks, the nested sender-then-receiver locks of a transfer and their deadlock risk, the cashier pool, the `AtomicBoolean` flag and the one-second `poll` timeout. Each operation is one atomic step. `Processing.Drain` is one cashier working after the stop flag is cleared; with several cashiers the order of the reports is not fixed. `GetTransaction` returns None at once where the source waits up to a second.
- The thread pool and the scheduler started by the bank's constructor, and `shutdown`, are executor lifecycle. They are not modelled, and the constructor takes no cashier count.
- `updateExchangeRates` draws random perturbations on a timer and is not modelled, nor is the "rates updated" message it publishes on every tick. The rates stay at their seed values, so the sample run is stated at the seed rates, although the ticker starts with no delay. The invariant only asks that every rate be positive, which the perturbation (at most one percent) would keep.
- `Observer`, `addObserver` and the per-observer fan-out are not modelled. The log records each published message once, whatever the number of observers. Messages are `Event` values, not the printed Russian strings with formatted doubles.
- `src/Main.java` wiring, `Thread.sleep` and printing are not modelled. Only its sample run is stated, as `Dispatch.SampleRun`.
- Null references are not modelled: Dafny's types rule out `addClient(null)`, `enqueueTransaction(null)`, a client with a null currency and a null target currency in an exchange. In the source each of these throws `NullPointerException`; a null target currency throws after the first two exchange checks pass, so neither an error nor the report is published and the exception ends that cashier's task.
- IEEE `double` rounding, overflow and non-finite values (NaN, infinities) are not modelled: balances and rates are `real`. In the source a NaN balance makes `balance < amount` false, so such an exchange would pass the funds check.
- Client ids are Java `int`. They are used only as keys, never in arithmetic, so they are unbounded `int` here.
- `Banking.Bank.GetClient`: it requires the bank invariant (every client registered under its own id), which holds for every reachable bank, so that it can promise the returned client carries the requested id.
