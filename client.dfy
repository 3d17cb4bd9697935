/**
 * The account record of one bank client: a fixed id and a balance and
 * currency that the bank overwrites in place through the setters.
 */
module Clients {

  class Client {
    /** The id is final: no method can change it. */
    const id: int
    var balance: real
    var currency: string

    constructor (id: int, balance: real, currency: string)
      ensures this.id == id && this.balance == balance && this.currency == currency
    {
      this.id := id;
      this.balance := balance;
      this.currency := currency;
    }

    function GetId(): (r: int)
      ensures r == id
    {
      id
    }

    function GetBalance(): (r: real)
      reads this`balance
      ensures r == balance
    {
      balance
    }

    /** Overwrites the balance and nothing else. */
    method SetBalance(b: real)
      modifies this`balance
      ensures balance == b
    {
      balance := b;
    }

    function GetCurrency(): (r: string)
      reads this`currency
      ensures r == currency
    {
      currency
    }

    /** Overwrites the currency and nothing else. */
    method SetCurrency(c: string)
      modifies this`currency
      ensures currency == c
    {
      currency := c;
    }
  }

  /**
   * What a caller observes of a client after a sequence of setter calls:
   * the last balance and the last currency written win over the constructor's.
   */
  method SetterHistory(id: int, b0: real, c0: string, b1: real, b2: real, c1: string)
    returns (b: real, cur: string, i: int)
    ensures b == b2 && cur == c1 && i == id
  {
    var c := new Client(id, b0, c0);
    c.SetBalance(b1);
    c.SetCurrency(c1);
    c.SetBalance(b2);
    b, cur, i := c.GetBalance(), c.GetCurrency(), c.GetId();
  }
}
