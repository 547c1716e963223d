/**
 * Record shapes of the ledger: the sale status and payment type enums, the
 * immutable Payment and SalePaymentLink rows, and the SaleItem snapshot.
 * Customer and Sale, whose fields the services update in place, are
 * datatypes in module Ledger; Ledger.Store replaces them in its map and
 * sequence.
 */
module Records {
  import opened Wrappers
  import opened Money

  /** The three states a sale can be in (stored as "unpaid", "partially_paid", "fully_paid"). */
  datatype SaleStatus = Unpaid | PartiallyPaid | FullyPaid

  /** How a payment was made (stored as "transfer", "cash", "card"). */
  datatype PaymentType = Transfer | Cash | Card

  /** Money received: created once, never changed. */
  datatype Payment = Payment(id: nat, customerId: nat, amount: Cents, paymentType: PaymentType)

  /** Audit row: how much of one payment went to one sale. Keyed by (saleId, paymentId). */
  datatype SalePaymentLink = SalePaymentLink(saleId: nat, paymentId: nat, amountApplied: Cents)

  /** Why a ledger operation was refused; each is a "not found" answer except the last. */
  datatype LedgerError =
    | ProductInvalid(productId: nat)
    | SizeNotFound(sizeId: nat, productId: nat)
    | CustomerNotFound
    | PaymentTypeMissing   // an upfront payment without a payment type cannot be stored

  /** One priced line of a sale: the unit price is a snapshot taken when the sale was made. */
  datatype SaleItem = SaleItem(productId: nat, sizeId: Option<nat>, quantity: int, unitPrice: Cents, total: Cents)

  /**
   * What each status says about the amounts of a sale: nothing paid, some
   * but not all paid, or everything paid.
   */
  predicate StatusAgrees(status: SaleStatus, amountPaid: Cents, totalAmount: Cents)
  {
    match status
    case Unpaid => amountPaid == 0
    case PartiallyPaid => 0 < amountPaid < totalAmount
    case FullyPaid => amountPaid == totalAmount
  }

  /** The status a payment leaves on a sale it reached. */
  function StatusAfterPayment(amountPaid: Cents, totalAmount: Cents): (s: SaleStatus)
    ensures s == FullyPaid <==> amountPaid >= totalAmount
    ensures s != Unpaid
  {
    if amountPaid >= totalAmount then FullyPaid else PartiallyPaid
  }

  /** Sum of the line totals of a sale. */
  function SumTotals(items: seq<SaleItem>): Cents
  {
    if items == [] then 0 else SumTotals(items[..|items| - 1]) + items[|items| - 1].total
  }
}
