/** Amounts of money with their currency. */
module Amounts {
  datatype Money = Money(amount: real, currency: string)
}
