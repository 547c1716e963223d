# Ledger allocation core of the bookkeeping backend

This project models the money-moving core of a bookkeeping backend. The
backend serves a small print and materials business. Each customer carries
two running balances: `credit_balance` (money overpaid and held for later)
and `total_debt` (money owed). Each sale carries `total_amount`,
`amount_paid`, `credit_applied` and a `status` (unpaid, partially paid or
fully paid). Two services move money between them:

- **Recording a payment** (`add_payment`). The pool is the payment plus the
  customer's credit. The customer's sales that are not fully paid are walked
  oldest first, and each gets `min(pool, what it still owes)`. Every sale
  reached gets an audit link. The debt drops by what was allocated, clamped
  at zero. What is left of the pool becomes the credit.
- **Creating a sale** (`create_sale`). The line items are priced: a size's
  price when a size is named, else the product's base price. The new sale is
  paid from the upfront payment plus the customer's credit. A "seesaw" then
  moves the customer's balances. Money the sale did not need pays down the
  aggregate debt and the rest becomes credit. A shortfall is added to the
  debt. A positive upfront payment is recorded as a Payment, with one link
  for the part the sale used.

Smaller pieces modelled beside it:
- `update_product`, including its merge of a sent size list by size name.
- `create_product`.
- The day-by-day gap filling of the sales trend.
- The formatting of request-validation errors.

Money is integer cents, because every amount column has two fraction digits.
Module `Allocation` holds the pure arithmetic and its lemmas. Module
`Ledger` holds the store and its services. `Ledger.Store` keeps customers,
sales in creation order, payments and links. Its methods are specified by
the functions `AfterPayment` and `AfterSale`. A service call is one atomic
step on the store. Ids and creation stamps come from one counter, standing
in for fresh UUIDs and timestamps.

These readings of the code shape what the model proves:
- The `total_debt` column is commented "Total amount the customer owes
  across all sales" (src/customers/models.py:20). The code keeps it at
  most that amount, not equal to it. When a new sale is fully covered,
  `create_sale` spends the leftover on the aggregate debt
  (src/sales/services.py:119-128) but leaves the older sales' `amount_paid`
  alone. The model therefore proves the invariant `Ledger.DebtCovered`:
  each customer's debt is at most what their sales still owe. New
  customers, payments and sales with a non-negative upfront payment keep
  it. A sale moves the customer's credit minus debt by exactly the upfront
  payment minus the total (`Ledger.SaleNetPosition`). A payment conserves
  credit minus what the customer's sales still owe
  (`Allocation.PaymentSettles`). Credit minus debt, however, rises by the
  payment less whatever the clamp of the debt at zero discards
  (`Allocation.PaymentNetChange`).
- Once the debt is below what the sales owe, a later payment can allocate
  more than the debt. The clamp at zero (src/payments/services.py:84-86)
  then discards the difference: money leaves the customer's balances
  without a trace (`Allocation.PaymentLostToClamp`,
  `Allocation.SeesawThenPaymentLost`).
- `add_payment` pools the payment with the customer's credit
  (src/payments/services.py:51). It writes every link under the new
  payment (src/payments/services.py:64-67), credit money included, so a
  payment's links can add up to more than its amount. What holds instead
  is the invariant `Ledger.Reconciled`: each sale's paid amount is the
  credit it drew plus what the links naming it applied.
- The payment row declares `amount` with `gt=0`
  (src/payments/models.py:34). `add_payment` itself checks nothing, so the
  model takes a positive amount as that column's constraint.
  `create_sale` reads the upfront payment unchecked
  (src/sales/services.py:27), and a negative one is modelled as the code
  handles it. It records more credit drawn than the sale shows paid, by
  min(-upfront, credit) (`Allocation.NegativeUpfrontOverstates`). It
  overstates the debt when the upfront payment plus the credit is negative
  (`Allocation.SaleOverstatesDebt`). A later payment can then leave the
  customer in credit and in debt at once
  (`Allocation.NegativeUpfrontUnsettles`). The two invariants are
  therefore proved for a non-negative upfront payment.
- An update to a missing product is raised as a 400 inside a blanket
  exception guard. The caller therefore sees a 500 "Update failed".
  An update that sends only a category is refused as empty.

## Model

| member | source | states |
|---|---|---|
| `Allocation.Allocate` | src/payments/services.py:54-74 | the walk hands out at most one amount per open sale |
| `Allocation.AllocateConserves` | src/payments/services.py:50-74 | what the walk hands out plus what is left equals the pool (payment plus old credit) |
| `Allocation.AllocateLeftover` | src/payments/services.py:55-56 | a pool that starts non-negative never goes negative |
| `Allocation.AllocateBounded` | src/payments/services.py:58-61 | each visited sale gets between 0 and what it owes, and something when it owes something |
| `Allocation.AllocateFifo` | src/payments/services.py:54-74 | oldest first: every visited sale except the last is paid exactly what it owed |
| `Allocation.AllocateStops` | src/payments/services.py:54-56 | the walk stops early only once the pool is spent; money is left only when every open sale was paid in full |
| `Allocation.AllocateWithinOpen` | src/payments/services.py:54-74 | the allocation never exceeds the open balances' sum, and equals it when money is left over |
| `Allocation.RemainingSum` | src/payments/services.py:72-74 | what the allocation takes off the open balances is exactly what it hands out |
| `Allocation.ApplyPayment` | src/payments/services.py:84-87 | the customer's new balances are never negative |
| `Allocation.PaymentNetChange` | src/payments/services.py:50-87 | credit minus debt rises by the payment, less what the debt clamp at zero discards |
| `Allocation.PaymentSettles` | src/payments/services.py:50-87 | measured against the open balances, a payment loses no money; if the debt was within the open balances it stays so, and the customer ends in credit or in debt, not both |
| `Allocation.NewSaleTerms` | src/sales/services.py:91-110 | amount paid is min(max(0, upfront + credit), total); status agrees with it; fully paid iff upfront + credit covers the total; credit drawn is between 0 and the old credit |
| `Allocation.BalanceAfterSale` | src/sales/services.py:112-135 | the seesaw leaves balances non-negative, never both positive, and moves credit minus debt by exactly upfront minus total |
| `Allocation.UpfrontLink` | src/sales/services.py:143-163 | a link exists iff the upfront payment is positive, and covers at most the upfront payment and the total |
| `Allocation.SaleReconciles` | src/sales/services.py:95-110 | with a non-negative upfront payment, credit drawn plus the upfront link equals the amount paid |
| `Allocation.SaleKeepsDebtWithinOpen` | src/sales/services.py:114-135 | with a non-negative upfront payment, a new sale grows the debt by at most what the new sale still owes |
| `Allocation.NegativeUpfrontOverstates` | src/sales/services.py:92-110 | with a negative upfront payment, the credit drawn exceeds the amount paid by exactly min(-upfront, credit), so it exceeds it iff there was credit |
| `Allocation.SaleOverstatesDebt` | src/sales/services.py:92-135 | the debt after a sale exceeds the old debt plus what the sale owes iff upfront + credit < 0, and then by exactly -(upfront + credit) |
| `Allocation.NegativeUpfrontUnsettles` | src/sales/services.py:92-135 | with no credit or debt, a sale of 100 with upfront -10 leaves a debt of 110, and a later payment of 200 against an open 100 leaves the customer in credit and in debt at once |
| `Allocation.PaymentLostToClamp` | src/payments/services.py:54-87 | a customer with no debt or credit who pays at most what their open sales owe hands all of it to the sales and ends with no credit and no debt, so the payment vanishes from the balances |
| `Allocation.SeesawThenPaymentLost` | src/sales/services.py:119-128 | with a debt of 100, a sale of 50 with upfront 150 clears the debt without paying the older sale; a later payment of 100 against it then ends at zero credit and zero debt |
| `Records.StatusAfterPayment` | src/payments/services.py:76-79 | a sale reached by a payment is fully paid iff its paid amount reaches its total, else partially paid |
| `Pricing.PriceItems` | src/sales/services.py:32-75 | succeeds iff every product exists and every named size exists and belongs to its product; the first unknown product is reported before any size; line j is item j at its size or base price; the total is the sum of line totals and not negative |
| `Pricing.PricedTotalNonNegative` | src/sales/services.py:68-75 | positive quantities at positive prices give a non-negative sale total |
| `Ledger.PaySaleValid` | src/payments/services.py:71-79 | a payment of at most what a sale owes keeps it within its total and sets it fully paid exactly when it covers what was owed |
| `Ledger.Outstanding` | src/payments/services.py:36-41 | positions of existing sales only |
| `Ledger.OutstandingSound` | src/payments/services.py:36-41 | every sale picked belongs to the customer and is not fully paid |
| `Ledger.OutstandingComplete` | src/payments/services.py:36-41 | no sale of the customer that is not fully paid is missed |
| `Ledger.OutstandingOldestFirst` | src/payments/services.py:36-41 | the picked sales come in ascending creation order |
| `Ledger.PayAllValid` | src/payments/services.py:58-79 | paying each reached sale at most what it owes keeps every sale valid |
| `Ledger.SpendOnSales` | src/payments/services.py:54-79 | the allocation loop's sales, links, total allocated and leftover equal those of `Allocation.Allocate` on the open balances |
| `Ledger.AfterPayment` | src/payments/services.py:44-87 | a payment keeps the customer ids and the number of sales, appends exactly the new payment under the next id, and adds at most one link per open sale of the customer |
| `Ledger.PostPayment` | src/payments/services.py:44-87 | the books after the payment are `AfterPayment`, and the new payment takes the next id |
| `Ledger.Store.AddPayment` | src/payments/services.py:18-98 | an unknown customer changes nothing and is reported; otherwise the store becomes `AfterPayment` and stays valid; it keeps the debts covered (the payer then in credit or in debt, not both) and the sales reconciled |
| `Ledger.PaymentKeepsBooks` | src/payments/services.py:54-87 | a payment keeps balances non-negative, sales within their totals and in creation order, and at most one link per sale and payment |
| `Ledger.PaymentLeavesOthers` | src/payments/services.py:36-41 | sales of other customers and fully paid sales are untouched |
| `Ledger.PaymentLinksMatch` | src/payments/services.py:63-79 | the k-th new link names the k-th open sale and the new payment, its amount is exactly what that sale's paid amount rose by, and the sale is fully paid iff the link covered what it owed |
| `Ledger.OpenSumIsOwed` | src/payments/services.py:36-58 | the open balances a payment walks add up to what the customer's sales still owe |
| `Ledger.LinkedToPayAll` | src/payments/services.py:63-74 | the links one payment writes name each sale with exactly what its paid amount rose by |
| `Ledger.PaymentKeepsDebtCovered` | src/payments/services.py:54-87 | a payment keeps every customer's debt within what their sales owe, and leaves the payer in credit or in debt but not both |
| `Ledger.PaymentKeepsReconciled` | src/payments/services.py:63-79 | after a payment every sale's paid amount is still its credit drawn plus what its links applied, and every link names an existing sale |
| `Ledger.PaymentKeepsLedger` | src/payments/services.py:44-87 | a payment keeps the books valid, the debts covered with the payer settled, and the sales reconciled |
| `Ledger.Store.AddCustomer` | src/customers/models.py:15-21 | a new customer starts with zero credit and zero debt under a fresh id; nothing else changes; the debts stay covered and the sales reconciled |
| `Ledger.CustomerKeepsLedger` | src/customers/models.py:15-21 | the fresh id is unused, and storing the new customer keeps the books valid, the debts covered and the sales reconciled |
| `Ledger.SettleNewSale` | src/sales/services.py:91-135 | the in-place arithmetic of create_sale agrees with `NewSaleTerms` and `BalanceAfterSale` |
| `Ledger.AfterSale` | src/sales/services.py:91-163 | a sale keeps the customer ids, appends one sale of the customer under the next id with one line per item, and adds one payment and one link iff the upfront payment is positive |
| `Ledger.Store.CreateSale` | src/sales/services.py:18-178 | succeeds iff the items price, the customer exists and an upfront payment has a type; any failure changes nothing; success makes the store `AfterSale`; with a non-negative upfront payment the debts stay covered and the sales reconciled |
| `Ledger.Store.RecordSale` | src/sales/services.py:91-163 | writing an accepted, priced sale makes the store `AfterSale`, keeps it valid and returns the new last sale |
| `Ledger.SaleKeepsBooks` | src/sales/services.py:137-163 | creating a sale keeps the books valid |
| `Ledger.SaleNetPosition` | src/sales/services.py:112-135 | the customer's credit minus debt moves by exactly upfront minus total and the customer is not in credit and debt at once; no other customer, older sale, payment or link changes |
| `Ledger.SaleKeepsDebtCovered` | src/sales/services.py:112-135 | with a non-negative upfront payment, a new sale keeps every customer's debt within what their sales owe |
| `Ledger.SaleKeepsReconciled` | src/sales/services.py:95-163 | with a non-negative upfront payment, a new sale keeps every sale, itself included, reconciled with its links, and every link names an existing sale |
| `Ledger.SaleKeepsLedger` | src/sales/services.py:91-163 | a new sale keeps the books valid, and with a non-negative upfront payment the debts covered and the sales reconciled |
| `Ledger.SaleLinksReconcile` | src/sales/services.py:143-163 | with a non-negative upfront payment, the new sale's credit drawn plus its one link (none without an upfront payment) equals its amount paid |
| `Products.Product.constructor` | src/products/services.py:18-38 | a new product carries exactly the requested sizes, in order, as new distinct rows of the product |
| `Products.Product.MergeSizes` | src/products/services.py:124-141 | result entry j answers sent entry j: the existing size of that name is kept as the same row with the last price sent for its name, or a new row of the product is made; unnamed sizes are dropped and keep their prices |
| `Products.UpdateProduct` | src/products/services.py:97-154 | an empty request is refused before the lookup; a missing product or a null required column is refused with nothing changed; sent scalar fields are written and others kept; without a size list the sizes are untouched |
| `Products.LastPriceDistinct` | src/products/services.py:129-134 | with distinct sent names, a kept size ends with the price sent for it |
| `Products.LastPriceIsLastEntry` | src/products/services.py:129-134 | the price a name ends with is that of the last sent entry with the name |
| `Products.PriceAfterStep` | src/products/services.py:129-137 | each sent entry changes the price of the one size row it finds and no other |
| `Analytics.StartDate` | src/analytics/services.py:39-40 | the range ends on the end date and spans exactly `days` days when days ≥ 1; it is empty otherwise |
| `Analytics.Trend` | src/analytics/services.py:62-71 | one entry per day of the range, the first on the first day and the last on the last day |
| `Analytics.TrendAt` | src/analytics/services.py:62-71 | entry k is day first + k with its total or 0, one entry per day of the range |
| `Analytics.TrendShape` | src/analytics/services.py:38-73 | max(0, days) entries on consecutive ascending days, from the start date to the end date |
| `Analytics.SalesTrend` | src/analytics/services.py:38-73 | the fill loop returns the trend: max(0, days) entries, entry k on day start + k with that day's total or 0 |
| `Validation.FormatValidationErrors` | src/__init__.py:83-93 | one entry per error, in order, with the field its location names and the error's message |
| `Validation.FieldOf` | src/__init__.py:88 | a one-element location gives that element's text; a longer one gives a field starting with the second element's text |
| `Validation.FieldSplits` | src/__init__.py:87-88 | for a location longer than one, the field cuts at its dots into exactly the texts of the elements after the first |
| `Validation.SplitJoin` | src/__init__.py:88 | joining dot-free parts with "." and cutting at the dots gives the parts back |
| `Validation.NatTextValue` | src/__init__.py:88 | a list position written as text reads back as the same number |
| `Validation.PartTextDotFree` | src/__init__.py:88 | a list position's text holds no dot |

## Left out

- Authentication, the user-existence check and the `user_id` stamps: foreign calls and I/O.
- Row locking, flush, commit and rollback: each service call is one atomic method on in-memory state. Lock interleavings and the lost-update risk they close are not modelled.
- Commit failures in general. Two failures are kept because inputs cause them and nothing persists: an upfront payment without a payment type (the payment row needs one), and a null written to a required product column.
- UUIDs and timestamps: a counter supplies fresh ids and creation stamps. Sales are kept in creation order.
- Getters, deletes, the dashboard, product-performance and top-customer queries: database reads with no logic of their own.
- The database grouping in the sales trend: the per-day totals are given as a map from day number to amount, and today's date is a parameter.
- Analytics.StartDate: day numbers are unbounded integers, so the start date always exists; see the next line for where the service fails instead.
- Analytics.SalesTrend: day numbers are unbounded integers. Python dates stop at year 1 and year 9999, so the start-date subtraction (src/analytics/services.py:40) raises OverflowError when `days` pushes the start date out of that range (above about 740,000 or below about -2,900,000). The route does not bound `days` (src/analytics/routes.py:23). For such values the model returns a trend where the service fails.
- Sale column defaults (0.00 and unpaid): `create_sale` always sets these fields, so the defaults never show in the model.
- Amounts with more than two fraction digits: all money is whole cents.
- Ledger.Store.AddPayment: requires amount > 0. The code never checks it, and a non-positive payment is outside what the service is meant to receive.
- Ledger.Store.CreateSale: the sale schema allows an explicit null item list (src/sales/schemas.py:23). `pop("items", [])` then returns None (src/sales/services.py:24), and collecting the product ids raises TypeError outside any guarded block (src/sales/services.py:32). The request fails and nothing is created. The model's sale input always carries a list, so this failure is not modelled, and "succeeds iff" holds only for list inputs.
- Ledger.Store.CreateSale: requires positive quantities and positive catalogue prices. These are declared on the sale item and product columns, not checked by the service.
- Validation.FormatValidationErrors: requires every location to be non-empty, because the code reads its first element unguarded.
- Products.Product.constructor: the create schema allows an explicit null size list (src/products/schemas.py:32). `pop("sizes", [])` then returns None (src/products/services.py:27), and building the size rows raises TypeError before the guarded block (src/products/services.py:38). The request fails and nothing is created. The model's product input always carries a list, so this failure is not modelled.
- Products.UpdateProduct: takes the looked-up product (or null) as a parameter in place of the database read.
- Products.UpdateProduct: a sent size list that drops a size still referenced by sale items makes the database refuse the delete, and the whole update fails (src/products/services.py:139-140). Sale items and foreign keys are not part of this model, so the model lets the size go.
