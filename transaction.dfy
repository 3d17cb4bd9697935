/**
 * The closed set of transactions a producer can queue. Every variant
 * carries the id of the client it originates from (for a transfer, the
 * sender); all fields are immutable once the value is built.
 */
module Transactions {

  datatype Transaction =
    | Deposit(clientId: int, amount: real)
    | Withdrawal(clientId: int, amount: real)
    | FundsTransfer(clientId: int, receiverId: int, amount: real)
    | CurrencyExchange(clientId: int, fromCurrency: string, toCurrency: string, amount: real)
}
