/**
 * The bank: a registry of client objects keyed by id, a rate table, the
 * queue of pending transactions and the log of published messages. Each
 * operation is one atomic step; its effect on the clients, rates and log is
 * the corresponding function of module Ledger applied to the old state.
 */
module Banking {
  import opened Wrappers
  import opened Clients
  import opened Transactions
  import L = Ledger

  /** The account record a client object currently holds. */
  ghost function AccountOf(c: Client): L.Account
    reads c
  {
    L.Account(c.id, c.balance, c.currency)
  }

  class Bank {
    var clients: map<int, Client>
    var rates: map<string, real>
    var log: seq<L.Event>
    var queue: seq<Transaction>

    /** Every client object is registered under its own (final) id; every rate is positive. */
    ghost predicate Valid()
      reads this`clients, this`rates
    {
      (forall id :: id in clients ==> clients[id].id == id) && L.RatesPositive(rates)
    }

    /** The bank as a ledger value: what the registered client objects hold now. */
    ghost function State(): (s: L.BankState)
      reads this`clients, this`rates, this`log, clients.Values
      ensures Valid() ==> L.Valid(s)
    {
      L.BankState(map id | id in clients :: AccountOf(clients[id]), rates, log)
    }

    /** A bank with no clients, nothing queued or published, and the seeded rates. */
    constructor ()
      ensures Valid() && queue == []
      ensures State() == L.BankState(map[], L.SeedRates, [])
    {
      clients := map[];
      rates := L.SeedRates;
      log := [];
      queue := [];
    }

    /** Registers `client` under its id; a client already registered under that id is replaced. */
    method AddClient(client: Client)
      requires Valid()
      modifies this`clients
      ensures Valid()
      ensures clients == old(clients)[client.id := client]
      ensures State() == L.AddClient(old(State()), AccountOf(client))
    {
      clients := clients[client.id := client];
    }

    /** The client registered under `id`, or null. */
    method GetClient(id: int) returns (c: Client?)
      requires Valid()
      ensures id in clients ==> c == clients[id]
      ensures id !in clients ==> c == null
      ensures c != null ==> c.id == id
    {
      c := if id in clients then clients[id] else null;
    }

    /** Publishes a message to the observers: here, appends it to the log. */
    method NotifyObservers(e: L.Event)
      modifies this`log
      ensures log == old(log) + [e]
      ensures State() == L.Notify(old(State()), e)
    {
      log := log + [e];
    }

    method EnqueueTransaction(tx: Transaction)
      modifies this`queue
      ensures queue == old(queue) + [tx]
      ensures clients == old(clients) && State() == old(State())
    {
      queue := queue + [tx];
    }

    /** Takes the transaction at the head of the queue; None when nothing is pending. */
    method GetTransaction() returns (r: Option<Transaction>)
      modifies this`queue
      ensures old(queue) == [] ==> r == None && queue == []
      ensures old(queue) != [] ==> r == Some(old(queue)[0]) && queue == old(queue)[1..]
      ensures clients == old(clients) && State() == old(State())
    {
      if queue == [] {
        r := None;
      } else {
        r := Some(queue[0]);
        queue := queue[1..];
      }
    }

    function IsTransactionQueueEmpty(): (r: bool)
      reads this`queue
      ensures r <==> |queue| == 0
    {
      queue == []
    }

    /** A registered client's setBalance, seen through the ledger: only that client's record changes. */
    method SetClientBalance(client: Client, b: real)
      requires Valid() && client.id in clients && clients[client.id] == client
      modifies client`balance
      ensures client.balance == b
      ensures State() == old(State()).(accounts := old(State()).accounts[client.id := AccountOf(client)])
    {
      client.SetBalance(b);
      forall k | k in clients
        ensures State().accounts[k] == old(State()).accounts[client.id := AccountOf(client)][k]
      {
        if k != client.id {
          assert clients[k] in clients.Values;
        }
      }
    }

    /** A registered client's setCurrency, seen through the ledger: only that client's record changes. */
    method SetClientCurrency(client: Client, c: string)
      requires Valid() && client.id in clients && clients[client.id] == client
      modifies client`currency
      ensures client.currency == c
      ensures State() == old(State()).(accounts := old(State()).accounts[client.id := AccountOf(client)])
    {
      client.SetCurrency(c);
      forall k | k in clients
        ensures State().accounts[k] == old(State()).accounts[client.id := AccountOf(client)][k]
      {
        if k != client.id {
          assert clients[k] in clients.Values;
        }
      }
    }

    method Deposit(clientId: int, amount: real)
      requires Valid()
      modifies clients.Values
      ensures Valid()
      ensures State() == L.Deposit(old(State()), clientId, amount)
    {
      if clientId in clients {
        var client := clients[clientId];
        var b := client.GetBalance();
        SetClientBalance(client, b + amount);
      }
    }

    method Withdraw(clientId: int, amount: real)
      requires Valid()
      modifies this`log, clients.Values
      ensures Valid()
      ensures State() == L.Withdraw(old(State()), clientId, amount)
    {
      if clientId in clients {
        var client := clients[clientId];
        var b := client.GetBalance();
        if b >= amount {
          b := client.GetBalance();
          SetClientBalance(client, b - amount);
        } else {
          NotifyObservers(L.InsufficientFunds(clientId));
        }
      }
    }

    /**
     * The mutation at the end of a successful exchange, in the order the
     * bank performs it: debit the amount, credit the converted amount,
     * switch the currency.
     */
    method Redenominate(client: Client, amount: real, convertedAmount: real, toCurrency: string)
      requires Valid() && client.id in clients && clients[client.id] == client
      modifies client`balance, client`currency
      ensures State() == old(State()).(accounts := old(State()).accounts[client.id :=
                L.Account(client.id, old(client.balance) - amount + convertedAmount, toCurrency)])
    {
      ghost var s0 := State();
      var b := client.GetBalance();
      SetClientBalance(client, b - amount);
      ghost var s1 := State();
      b := client.GetBalance();
      SetClientBalance(client, b + convertedAmount);
      ghost var s2 := State();
      SetClientCurrency(client, toCurrency);
      assert s1.accounts == s0.accounts[client.id := s1.accounts[client.id]];
      assert s2.accounts == s1.accounts[client.id := s2.accounts[client.id]];
    }

    method ExchangeCurrency(clientId: int, fromCurrency: string, toCurrency: string, amount: real)
      requires Valid()
      modifies this`log, clients.Values
      ensures Valid()
      ensures State() == L.ExchangeCurrency(old(State()), clientId, fromCurrency, toCurrency, amount)
    {
      if clientId in clients {
        var client := clients[clientId];
        var currency := client.GetCurrency();
        if currency != fromCurrency {
          NotifyObservers(L.CurrencyMismatch);
          return;
        }
        var b := client.GetBalance();
        if b < amount {
          NotifyObservers(L.ExchangeInsufficientFunds(clientId));
          return;
        }
        if fromCurrency !in rates || toCurrency !in rates {
          NotifyObservers(L.UnknownCurrency);
          return;
        }
        var rateFrom, rateTo := rates[fromCurrency], rates[toCurrency];
        var amountInBase := amount / rateFrom;
        var convertedAmount := amountInBase * rateTo;
        assert convertedAmount == L.Converted(rates, fromCurrency, toCurrency, amount);
        ghost var s0 := State();
        Redenominate(client, amount, convertedAmount, toCurrency);
        L.ExchangeResult(s0, clientId, fromCurrency, toCurrency, amount);
      }
    }

    method TransferFunds(senderId: int, receiverId: int, amount: real)
      requires Valid()
      modifies this`log, clients.Values
      ensures Valid()
      ensures State() == L.TransferFunds(old(State()), senderId, receiverId, amount)
    {
      if senderId !in clients || receiverId !in clients {
        return;
      }
      ghost var s0 := State();
      var sender, receiver := clients[senderId], clients[receiverId];
      var b := sender.GetBalance();
      if b >= amount {
        b := sender.GetBalance();
        SetClientBalance(sender, b - amount);
        ghost var debited := State().accounts;
        assert debited == s0.accounts[senderId := s0.accounts[senderId].(balance := s0.accounts[senderId].balance - amount)];
        b := receiver.GetBalance();
        SetClientBalance(receiver, b + amount);
        assert State().accounts == debited[receiverId := debited[receiverId].(balance := debited[receiverId].balance + amount)];
        assert State() == s0.(accounts := State().accounts);
      } else {
        NotifyObservers(L.InsufficientFunds(senderId));
      }
    }
  }

  /**
   * A caller's view of the registry: a registered client is found under its
   * id, and registering another client with the same id replaces it.
   */
  method RegisterThenLookUp(bank: Bank, c: Client, d: Client) returns (first: Client?, second: Client?)
    requires bank.Valid() && c.id == d.id
    modifies bank`clients
    ensures first == c && second == d
  {
    bank.AddClient(c);
    first := bank.GetClient(c.id);
    bank.AddClient(d);
    second := bank.GetClient(c.id);
  }

  /**
   * A caller's view of the queue: transactions come out in the order they
   * went in, and taking from an empty queue yields nothing and leaves it empty.
   */
  method QueueIsFifo(bank: Bank, t1: Transaction, t2: Transaction)
    returns (r1: Option<Transaction>, r2: Option<Transaction>, r3: Option<Transaction>)
    requires bank.queue == []
    modifies bank`queue
    ensures r1 == Some(t1) && r2 == Some(t2) && r3 == None && bank.queue == []
  {
    bank.EnqueueTransaction(t1);
    bank.EnqueueTransaction(t2);
    r1 := bank.GetTransaction();
    r2 := bank.GetTransaction();
    r3 := bank.GetTransaction();
  }
}
