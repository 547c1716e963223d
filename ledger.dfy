/**
 * The ledger's stored rows and its two money-moving services.
 *
 * Store is the database as the services see it: customers by id, sales in
 * creation order, and the append-only payments and payment-to-sale audit
 * links. A service call is one atomic step on the store (the customer row
 * lock and the transaction make it so in the backend); a row the backend
 * updates in place is replaced in the store's collection. Ids and creation
 * stamps are drawn from one counter, standing for fresh UUIDs and timestamps.
 */
module Ledger {
  import opened Wrappers
  import opened Money
  import opened Records
  import opened Allocation
  import opened Pricing

  /** A customer row: money overpaid (held for later sales) and money owed. */
  datatype Customer = Customer(id: nat, name: string, creditBalance: Cents, totalDebt: Cents) {
    function Balances(): Position { Position(creditBalance, totalDebt) }

    /** The same customer with the given balances. */
    function WithBalances(p: Position): (c: Customer)
      ensures c.id == id && c.name == name && c.Balances() == p
    {
      this.(creditBalance := p.credit, totalDebt := p.debt)
    }
  }

  /** A sale row. createdAt is its creation stamp: sales made later have larger stamps. */
  datatype Sale = Sale(id: nat, customerId: nat, createdAt: nat, totalAmount: Cents, amountPaid: Cents,
                       creditApplied: Cents, paymentType: Option<PaymentType>, status: SaleStatus,
                       items: seq<SaleItem>) {
    /** Paid within bounds, and the status says how much is paid. */
    predicate Valid() { 0 <= amountPaid <= totalAmount && StatusAgrees(status, amountPaid, totalAmount) }

    /** What the sale still owes. */
    function Owed(): Cents { totalAmount - amountPaid }
  }

  /** A sale after a payment reached it with the given amount. */
  function PaySale(s: Sale, applied: Cents): Sale
  {
    var paid := s.amountPaid + applied;
    s.(amountPaid := paid, status := StatusAfterPayment(paid, s.totalAmount))
  }

  /**
   * A valid sale paid up to what it owes (and something, if it owes
   * anything) stays valid, owes that much less, and is fully paid exactly
   * when the payment covered what it owed. Nothing but the paid amount and
   * the status changes.
   */
  lemma PaySaleValid(s: Sale, applied: Cents)
    requires s.Valid() && 0 <= applied <= s.Owed() && (s.Owed() > 0 ==> applied > 0)
    ensures PaySale(s, applied).Valid()
    ensures PaySale(s, applied).Owed() == s.Owed() - applied
    ensures PaySale(s, applied).status == FullyPaid <==> applied == s.Owed()
    ensures PaySale(s, applied).(amountPaid := s.amountPaid, status := s.status) == s
  {
  }

  /**
   * Positions in sales of the customer's sales that are not fully paid, in
   * store order (oldest first).
   */
  function Outstanding(sales: seq<Sale>, customerId: nat): (due: seq<nat>)
    ensures forall k :: 0 <= k < |due| ==> due[k] < |sales|
  {
    if sales == [] then []
    else
      var n := |sales| - 1;
      var rest := Outstanding(sales[..n], customerId);
      if sales[n].customerId == customerId && sales[n].status != FullyPaid then rest + [n] else rest
  }

  /** Every sale Outstanding picks is one of the customer's sales that is not fully paid. */
  lemma {:induction false} OutstandingSound(sales: seq<Sale>, customerId: nat)
    ensures forall k :: 0 <= k < |Outstanding(sales, customerId)| ==>
      sales[Outstanding(sales, customerId)[k]].customerId == customerId &&
      sales[Outstanding(sales, customerId)[k]].status != FullyPaid
  {
    if sales != [] {
      var n := |sales| - 1;
      OutstandingSound(sales[..n], customerId);
      var rest := Outstanding(sales[..n], customerId);
      forall k | 0 <= k < |rest|
        ensures sales[rest[k]] == sales[..n][rest[k]]
      {
      }
    }
  }

  /** Outstanding misses none of the customer's sales that are not fully paid. */
  lemma {:induction false} OutstandingComplete(sales: seq<Sale>, customerId: nat)
    ensures forall i :: 0 <= i < |sales| && sales[i].customerId == customerId && sales[i].status != FullyPaid ==>
      i in Outstanding(sales, customerId)
  {
    if sales != [] {
      var n := |sales| - 1;
      OutstandingComplete(sales[..n], customerId);
      forall i | 0 <= i < n && sales[i].customerId == customerId && sales[i].status != FullyPaid
        ensures i in Outstanding(sales, customerId)
      {
        assert sales[..n][i] == sales[i];
      }
    }
  }

  /** Outstanding lists positions in increasing order, so each at most once. */
  lemma {:induction false} OutstandingIncreasing(sales: seq<Sale>, customerId: nat)
    ensures forall k, l :: 0 <= k < l < |Outstanding(sales, customerId)| ==>
      Outstanding(sales, customerId)[k] < Outstanding(sales, customerId)[l]
  {
    if sales != [] {
      OutstandingIncreasing(sales[..|sales| - 1], customerId);
    }
  }

  /** With the sales in creation order, the outstanding ones come oldest first. */
  lemma OutstandingOldestFirst(sales: seq<Sale>, customerId: nat)
    requires Ascending(sales)
    ensures var due := Outstanding(sales, customerId);
      forall k, l :: 0 <= k < l < |due| ==> sales[due[k]].createdAt < sales[due[l]].createdAt
  {
    var due := Outstanding(sales, customerId);
    OutstandingIncreasing(sales, customerId);
    forall k, l | 0 <= k < l < |due|
      ensures sales[due[k]].createdAt < sales[due[l]].createdAt
    {
      AscendingAt(sales, due[k], due[l]);
    }
  }

  /** What each listed sale still owes. */
  function OpenBalances(sales: seq<Sale>, due: seq<nat>): (b: seq<Cents>)
    requires forall k :: 0 <= k < |due| ==> due[k] < |sales|
    ensures |b| == |due|
    ensures forall k :: 0 <= k < |due| ==> b[k] == sales[due[k]].Owed()
  {
    seq(|due|, k requires 0 <= k < |due| => sales[due[k]].Owed())
  }

  /** The sales after the listed ones received the given amounts, in order. */
  function PayAll(sales: seq<Sale>, due: seq<nat>, applied: seq<Cents>): (r: seq<Sale>)
    requires |applied| <= |due|
    requires forall k :: 0 <= k < |due| ==> due[k] < |sales|
    ensures |r| == |sales|
  {
    if applied == [] then sales
    else
      var n := |applied| - 1;
      var prev := PayAll(sales, due, applied[..n]);
      prev[due[n] := PaySale(prev[due[n]], applied[n])]
  }

  /** Sales the payment did not reach are left as they were. */
  lemma {:induction false} PayAllUntouched(sales: seq<Sale>, due: seq<nat>, applied: seq<Cents>, i: nat)
    requires |applied| <= |due|
    requires forall k :: 0 <= k < |due| ==> due[k] < |sales|
    requires i < |sales| && i !in due[..|applied|]
    ensures PayAll(sales, due, applied)[i] == sales[i]
  {
    if applied != [] {
      var n := |applied| - 1;
      assert due[..n] == due[..|applied|][..n];
      PayAllUntouched(sales, due, applied[..n], i);
    }
  }

  /** With distinct positions, each reached sale received exactly its amount. */
  lemma {:induction false} PayAllReached(sales: seq<Sale>, due: seq<nat>, applied: seq<Cents>, k: nat)
    requires |applied| <= |due|
    requires forall j :: 0 <= j < |due| ==> due[j] < |sales|
    requires forall j, l :: 0 <= j < l < |due| ==> due[j] != due[l]
    requires k < |applied|
    ensures PayAll(sales, due, applied)[due[k]] == PaySale(sales[due[k]], applied[k])
  {
    var n := |applied| - 1;
    if k == n {
      PayAllUntouched(sales, due, applied[..n], due[k]);
    } else {
      PayAllReached(sales, due, applied[..n], k);
    }
  }

  /**
   * A reached sale keeps its id, customer, stamp, total and credit drawn;
   * only its paid amount and status change.
   */
  lemma {:induction false} PayAllKeepsRows(sales: seq<Sale>, due: seq<nat>, applied: seq<Cents>)
    requires |applied| <= |due|
    requires forall k :: 0 <= k < |due| ==> due[k] < |sales|
    ensures var r := PayAll(sales, due, applied);
      forall i :: 0 <= i < |sales| ==>
        r[i].id == sales[i].id && r[i].customerId == sales[i].customerId &&
        r[i].createdAt == sales[i].createdAt && r[i].totalAmount == sales[i].totalAmount &&
        r[i].creditApplied == sales[i].creditApplied
  {
    if applied != [] {
      PayAllKeepsRows(sales, due, applied[..|applied| - 1]);
    }
  }

  /** Paying every reached sale at most what it owes keeps every sale valid. */
  lemma PayAllValid(sales: seq<Sale>, due: seq<nat>, applied: seq<Cents>)
    requires |applied| <= |due|
    requires forall k :: 0 <= k < |due| ==> due[k] < |sales|
    requires forall j, l :: 0 <= j < l < |due| ==> due[j] != due[l]
    requires forall i :: 0 <= i < |sales| ==> sales[i].Valid()
    requires forall k :: 0 <= k < |applied| ==>
      0 <= applied[k] <= sales[due[k]].Owed() && (sales[due[k]].Owed() > 0 ==> applied[k] > 0)
    ensures forall i :: 0 <= i < |sales| ==> PayAll(sales, due, applied)[i].Valid()
  {
    forall i | 0 <= i < |sales|
      ensures PayAll(sales, due, applied)[i].Valid()
    {
      if i in due[..|applied|] {
        var k :| 0 <= k < |applied| && due[k] == i;
        PayAllReached(sales, due, applied, k);
        PaySaleValid(sales[i], applied[k]);
      } else {
        PayAllUntouched(sales, due, applied, i);
      }
    }
  }

  /** The audit links one payment leaves on the sales it reached, one per sale. */
  function LinksFor(sales: seq<Sale>, due: seq<nat>, paymentId: nat, applied: seq<Cents>): (links: seq<SalePaymentLink>)
    requires |applied| <= |due|
    requires forall k :: 0 <= k < |due| ==> due[k] < |sales|
    ensures |links| == |applied|
  {
    if applied == [] then []
    else
      var n := |applied| - 1;
      LinksFor(sales, due, paymentId, applied[..n]) + [SalePaymentLink(sales[due[n]].id, paymentId, applied[n])]
  }

  /** The k-th link names the k-th listed sale, the payment, and what the sale received. */
  lemma {:induction false} LinksForAt(sales: seq<Sale>, due: seq<nat>, paymentId: nat, applied: seq<Cents>, k: nat)
    requires |applied| <= |due|
    requires forall j :: 0 <= j < |due| ==> due[j] < |sales|
    requires k < |applied|
    ensures LinksFor(sales, due, paymentId, applied)[k] == SalePaymentLink(sales[due[k]].id, paymentId, applied[k])
  {
    var n := |applied| - 1;
    if k < n {
      LinksForAt(sales, due, paymentId, applied[..n], k);
    }
  }

  /** One step of the allocation loop: the next listed sale is still as it was, and is paid next. */
  lemma PayAllStep(sales: seq<Sale>, due: seq<nat>, done: seq<Cents>, x: Cents)
    requires |done| < |due|
    requires forall k :: 0 <= k < |due| ==> due[k] < |sales|
    requires forall j, l :: 0 <= j < l < |due| ==> due[j] != due[l]
    ensures PayAll(sales, due, done)[due[|done|]] == sales[due[|done|]]
    ensures var prev := PayAll(sales, due, done);
      PayAll(sales, due, done + [x]) == prev[due[|done|] := PaySale(prev[due[|done|]], x)]
  {
    PayAllUntouched(sales, due, done, due[|done|]);
    assert (done + [x])[..|done|] == done;
  }

  /** One more step of the allocation loop writes one more link. */
  lemma LinksForStep(sales: seq<Sale>, due: seq<nat>, paymentId: nat, done: seq<Cents>, x: Cents)
    requires |done| < |due|
    requires forall k :: 0 <= k < |due| ==> due[k] < |sales|
    ensures LinksFor(sales, due, paymentId, done + [x])
         == LinksFor(sales, due, paymentId, done) + [SalePaymentLink(sales[due[|done|]].id, paymentId, x)]
  {
    assert (done + [x])[..|done|] == done;
  }

  /** The allocation loop's state: what it handed out, what is left, the sales and the links written so far. */
  datatype Spending = Spending(applied: seq<Cents>, rest: Cents, paid: seq<Sale>, newLinks: seq<SalePaymentLink>)

  /**
   * One turn of the allocation loop on the sale at position at: it receives
   * min(rest, what it still owes), its paid amount and status are set, and a
   * link from the payment to it is written.
   */
  function Turn(s: Spending, at: nat, paymentId: nat): (t: Spending)
    requires at < |s.paid|
    ensures |t.paid| == |s.paid|
  {
    var x := Min(s.rest, s.paid[at].totalAmount - s.paid[at].amountPaid);
    Spending(s.applied + [x], s.rest - x, s.paid[at := PaySale(s.paid[at], x)],
             s.newLinks + [SalePaymentLink(s.paid[at].id, paymentId, x)])
  }

  /**
   * The allocation loop's state after its first n turns; once nothing is
   * left the loop stops, so later turns change nothing.
   */
  ghost function SpendTurns(sales: seq<Sale>, due: seq<nat>, pool: Cents, paymentId: nat, n: nat): (s: Spending)
    requires n <= |due|
    requires forall k :: 0 <= k < |due| ==> due[k] < |sales|
    ensures |s.paid| == |sales|
    decreases n
  {
    if n == 0 then Spending([], pool, sales, [])
    else
      var s := SpendTurns(sales, due, pool, paymentId, n - 1);
      if s.rest <= 0 then s else Turn(s, due[n - 1], paymentId)
  }

  /**
   * A loop state in step with the allocation: the walk over the open
   * balances agrees with Allocation.Allocate so far, and the sales and links
   * are those the amounts handed out leave.
   */
  ghost predicate InStep(sales: seq<Sale>, due: seq<nat>, pool: Cents, paymentId: nat, s: Spending)
    requires forall k :: 0 <= k < |due| ==> due[k] < |sales|
  {
    |s.applied| <= |due| &&
    Walked(pool, OpenBalances(sales, due), s.applied, s.rest, |s.applied|) &&
    s.paid == PayAll(sales, due, s.applied) &&
    s.newLinks == LinksFor(sales, due, paymentId, s.applied)
  }

  /** Before the first turn the loop is in step with the allocation. */
  lemma SpendStart(sales: seq<Sale>, due: seq<nat>, pool: Cents, paymentId: nat)
    requires forall k :: 0 <= k < |due| ==> due[k] < |sales|
    ensures InStep(sales, due, pool, paymentId, Spending([], pool, sales, []))
  {
    var open := OpenBalances(sales, due);
    assert open[0..] == open;
  }

  /** A turn with money left keeps the loop in step with the allocation. */
  lemma SpendStep(sales: seq<Sale>, due: seq<nat>, pool: Cents, paymentId: nat, s: Spending, i: nat)
    requires forall k :: 0 <= k < |due| ==> due[k] < |sales|
    requires forall j, l :: 0 <= j < l < |due| ==> due[j] != due[l]
    requires InStep(sales, due, pool, paymentId, s)
    requires i == |s.applied| < |due| && s.rest > 0
    ensures |s.paid| == |sales|
    ensures InStep(sales, due, pool, paymentId, Turn(s, due[i], paymentId))
  {
    var at := due[i];
    var open := OpenBalances(sales, due);
    var x := Min(s.rest, s.paid[at].totalAmount - s.paid[at].amountPaid);
    PayAllStep(sales, due, s.applied, x);
    LinksForStep(sales, due, paymentId, s.applied, x);
    assert s.paid[at] == sales[due[i]] && open[i] == s.paid[at].totalAmount - s.paid[at].amountPaid;
    WalkStep(pool, open, s.applied, s.rest, i);
  }

  /** Every state the loop passes through is in step with the allocation, and while money is left it has taken one sale per turn. */
  lemma {:induction false} SpendTurnsInStep(sales: seq<Sale>, due: seq<nat>, pool: Cents, paymentId: nat, n: nat)
    requires n <= |due|
    requires forall k :: 0 <= k < |due| ==> due[k] < |sales|
    requires forall j, l :: 0 <= j < l < |due| ==> due[j] != due[l]
    ensures InStep(sales, due, pool, paymentId, SpendTurns(sales, due, pool, paymentId, n))
    ensures SpendTurns(sales, due, pool, paymentId, n).rest > 0 ==> |SpendTurns(sales, due, pool, paymentId, n).applied| == n
    decreases n
  {
    if n == 0 {
      SpendStart(sales, due, pool, paymentId);
    } else {
      SpendTurnsInStep(sales, due, pool, paymentId, n - 1);
      var s := SpendTurns(sales, due, pool, paymentId, n - 1);
      if s.rest > 0 {
        SpendStep(sales, due, pool, paymentId, s, n - 1);
      }
    }
  }

  /** When the loop stops, its state is the allocation's outcome. */
  lemma SpendDone(sales: seq<Sale>, due: seq<nat>, pool: Cents, paymentId: nat, n: nat)
    requires n <= |due|
    requires forall k :: 0 <= k < |due| ==> due[k] < |sales|
    requires forall j, l :: 0 <= j < l < |due| ==> due[j] != due[l]
    requires n == |due| || SpendTurns(sales, due, pool, paymentId, n).rest <= 0
    ensures var s := SpendTurns(sales, due, pool, paymentId, n);
      var a := Allocate(pool, OpenBalances(sales, due));
      s.paid == PayAll(sales, due, a.applied) && pool - s.rest == Sum(a.applied) &&
      s.rest == a.leftover && s.newLinks == LinksFor(sales, due, paymentId, a.applied)
  {
    var s := SpendTurns(sales, due, pool, paymentId, n);
    var open := OpenBalances(sales, due);
    SpendTurnsInStep(sales, due, pool, paymentId, n);
    WalkDone(pool, open, s.applied, s.rest, |s.applied|);
    AllocateConserves(pool, open);
  }

  /**
   * The allocation loop of a payment: walks the listed sales in order and,
   * while the pool is positive, gives each min(pool, what it still owes),
   * raising its paid amount, setting its status and writing one audit link.
   * Everything it returns agrees with Allocation.Allocate on the listed
   * sales' open balances.
   */
  method SpendOnSales(sales: seq<Sale>, due: seq<nat>, pool: Cents, paymentId: nat)
    returns (paid: seq<Sale>, totalAllocated: Cents, leftover: Cents, newLinks: seq<SalePaymentLink>)
    requires forall k :: 0 <= k < |due| ==> due[k] < |sales|
    requires forall j, l :: 0 <= j < l < |due| ==> due[j] != due[l]
    ensures var a := Allocate(pool, OpenBalances(sales, due));
      paid == PayAll(sales, due, a.applied) && totalAllocated == Sum(a.applied) &&
      leftover == a.leftover && newLinks == LinksFor(sales, due, paymentId, a.applied)
  {
    paid := sales;
    var rest := pool;
    totalAllocated := 0;
    newLinks := [];
    ghost var done: seq<Cents> := [];
    var i := 0;
    while i < |due|
      invariant i <= |due|
      invariant Spending(done, rest, paid, newLinks) == SpendTurns(sales, due, pool, paymentId, i)
      invariant totalAllocated == pool - rest
    {
      if rest <= 0 {
        break;
      }
      var at := due[i];
      var applied := Min(rest, paid[at].totalAmount - paid[at].amountPaid);
      newLinks := newLinks + [SalePaymentLink(paid[at].id, paymentId, applied)];
      paid := paid[at := PaySale(paid[at], applied)];
      rest := rest - applied;
      totalAllocated := totalAllocated + applied;
      done := done + [applied];
      i := i + 1;
    }
    SpendDone(sales, due, pool, paymentId, i);
    leftover := rest;
  }

  /** The ledger's tables at one moment: customers by id, sales in creation order, payments, audit links, and the next free id. */
  datatype Books = Books(customers: map<nat, Customer>, sales: seq<Sale>, payments: seq<Payment>,
                         links: seq<SalePaymentLink>, nextId: nat)
  {
    ghost predicate Valid()
    {
      CustomersValid(customers, nextId) && SalesValid(sales, customers, nextId) &&
      PaymentsValid(payments, nextId) && LinksValid(links, nextId)
    }
  }

  /**
   * The books after a payment of amount for a known customer: the payment
   * and the customer's credit are spent on the customer's sales that are not
   * fully paid, oldest first (Allocation.Allocate); every sale reached gets
   * an audit link and its new paid amount and status; the customer's balances
   * become Allocation.ApplyPayment of the old ones. The payment takes the
   * next id.
   */
  function AfterPayment(b: Books, customerId: nat, amount: Cents, paymentType: PaymentType): (after: Books)
    requires customerId in b.customers
    ensures after.customers.Keys == b.customers.Keys && |after.sales| == |b.sales|
    ensures after.payments == b.payments + [Payment(b.nextId, customerId, amount, paymentType)] && after.nextId == b.nextId + 1
    ensures |b.links| <= |after.links| <= |b.links| + |Outstanding(b.sales, customerId)|
  {
    var c := b.customers[customerId];
    var due := Outstanding(b.sales, customerId);
    var open := OpenBalances(b.sales, due);
    var a := Allocate(amount + c.creditBalance, open);
    Books(b.customers[customerId := c.WithBalances(ApplyPayment(c.Balances(), amount, open))],
          PayAll(b.sales, due, a.applied),
          b.payments + [Payment(b.nextId, customerId, amount, paymentType)],
          b.links + LinksFor(b.sales, due, b.nextId, a.applied),
          b.nextId + 1)
  }

  class Store {
    var customers: map<nat, Customer>
    /** Every sale, in creation order. */
    var sales: seq<Sale>
    var payments: seq<Payment>
    var links: seq<SalePaymentLink>
    /** Source of fresh ids and creation stamps. */
    var nextId: nat

    /** The store's tables as a value. */
    function State(): Books
      reads this
    {
      Books(customers, sales, payments, links, nextId)
    }

    ghost predicate Valid()
      reads this
    {
      State().Valid()
    }

    constructor ()
      ensures Valid()
      ensures State() == Books(map[], [], [], [], 0)
      ensures DebtCovered(State()) && Reconciled(State())
    {
      customers := map[];
      sales := [];
      payments := [];
      links := [];
      nextId := 0;
    }

    /**
     * Stores a new customer under the next id, with no credit and no debt
     * (the defaults of both balance columns).
     */
    method AddCustomer(name: string) returns (c: Customer)
      requires Valid()
      modifies this
      ensures Valid()
      ensures c == Customer(old(nextId), name, 0, 0) && old(nextId) !in old(customers)
      ensures customers == old(customers)[c.id := c] && nextId == old(nextId) + 1
      ensures sales == old(sales) && payments == old(payments) && links == old(links)
      ensures DebtCovered(old(State())) ==> DebtCovered(State())
      ensures Reconciled(old(State())) ==> Reconciled(State())
    {
      ghost var before := State();
      c := Customer(nextId, name, 0, 0);
      CustomerKeepsLedger(before, name);
      var after := Books(customers[nextId := c], sales, payments, links, nextId + 1);
      customers, nextId := after.customers, after.nextId;
      assert State() == after;
    }

    /**
     * Records a payment of the given amount for a customer and spends it,
     * with the customer's credit, as AfterPayment describes. An unknown
     * customer changes nothing.
     */
    method AddPayment(customerId: nat, amount: Cents, paymentType: PaymentType) returns (r: Result<Payment, LedgerError>)
      requires Valid()
      requires amount > 0
      modifies this
      ensures Valid()
      ensures customerId !in old(customers) ==> r == Failure(CustomerNotFound) && unchanged(this)
      ensures customerId in old(customers) ==>
        r == Success(Payment(old(nextId), customerId, amount, paymentType)) &&
        State() == AfterPayment(old(State()), customerId, amount, paymentType)
      ensures DebtCovered(old(State())) ==> DebtCovered(State())
      ensures DebtCovered(old(State())) && customerId in old(customers) ==> customers[customerId].Balances().Settled()
      ensures Reconciled(old(State())) ==> Reconciled(State())
    {
      if customerId !in customers {
        return Failure(CustomerNotFound);
      }
      PaymentKeepsLedger(State(), customerId, amount, paymentType);
      var after, payment := PostPayment(State(), customerId, amount, paymentType);
      customers, sales, payments, links, nextId := after.customers, after.sales, after.payments, after.links, after.nextId;
      r := Success(payment);
    }

    /**
     * Creates a sale for a customer and settles it at once, as AfterSale
     * describes: the items are priced, the new sale is paid from the upfront
     * payment plus the customer's credit, the customer's balances move by
     * the debt/credit seesaw, and a positive upfront payment is recorded
     * with one link to the new sale. An unknown product or size, an unknown
     * customer, or an upfront payment without a payment type changes nothing.
     */
    method CreateSale(customerId: nat, items: seq<ItemInput>, upfront: Cents, paymentType: Option<PaymentType>,
                      catalog: Catalog) returns (r: Result<Sale, LedgerError>)
      requires Valid() && catalog.Valid()
      requires forall j :: 0 <= j < |items| ==> items[j].quantity > 0
      modifies this
      ensures Valid()
      ensures r.Success? <==> SaleAccepted(old(State()), customerId, items, upfront, paymentType, catalog)
      ensures r.Failure? ==> unchanged(this)
      ensures (exists j :: 0 <= j < |items| && !Resolves(items[j], catalog)) ==>
        r.Failure? && (r.error.ProductInvalid? || r.error.SizeNotFound?)
      ensures (forall j :: 0 <= j < |items| ==> Resolves(items[j], catalog)) && customerId !in old(customers) ==>
        r == Failure(CustomerNotFound)
      ensures (forall j :: 0 <= j < |items| ==> Resolves(items[j], catalog)) && customerId in old(customers) &&
              upfront > 0 && paymentType.None? ==>
                r == Failure(PaymentTypeMissing)
      ensures r.Success? ==>
        State() == AfterSale(old(State()), customerId, items, upfront, paymentType, catalog) &&
        r.value == sales[|old(sales)|]
      ensures upfront >= 0 && DebtCovered(old(State())) ==> DebtCovered(State())
      ensures upfront >= 0 && Reconciled(old(State())) ==> Reconciled(State())
    {
      ghost var before := State();
      var priced := PriceItems(items, catalog);
      if priced.Failure? {
        return Failure(priced.error);
      }
      var (lines, total) := priced.value;
      if customerId !in customers {
        return Failure(CustomerNotFound);
      }
      if upfront > 0 && paymentType.None? {
        return Failure(PaymentTypeMissing);
      }
      SaleKeepsLedger(before, customerId, items, upfront, paymentType, catalog);
      var sale := RecordSale(customerId, items, upfront, paymentType, catalog, lines, total);
      r := Success(sale);
    }

    /**
     * The writes of an accepted sale request: the sale is paid from the
     * upfront payment plus the customer's credit, the customer's balances
     * move by the seesaw, the sale is stored, and a positive upfront payment
     * is stored with one link to the sale.
     */
    method RecordSale(customerId: nat, items: seq<ItemInput>, upfront: Cents, paymentType: Option<PaymentType>,
                      catalog: Catalog, lines: seq<SaleItem>, total: Cents) returns (sale: Sale)
      requires Valid() && catalog.Valid()
      requires forall j :: 0 <= j < |items| ==> items[j].quantity > 0
      requires SaleAccepted(State(), customerId, items, upfront, paymentType, catalog)
      requires lines == PricedLines(items, catalog) && total == SumTotals(lines)
      modifies this
      ensures Valid()
      ensures State() == AfterSale(old(State()), customerId, items, upfront, paymentType, catalog)
      ensures sale == sales[|old(sales)|]
    {
      ghost var before := State();
      PricedTotalNonNegative(items, catalog);
      var customer := customers[customerId];
      var amountPaid, status, creditUsed, credit, debt := SettleNewSale(customer.Balances(), upfront, total);
      sale := Sale(nextId, customerId, nextId, total, amountPaid, creditUsed, paymentType, status, lines);
      SaleKeepsBooks(before, customerId, items, upfront, paymentType, catalog);
      SaleRows(before, customerId, items, upfront, paymentType, catalog, SaleTerms(amountPaid, status, creditUsed), Position(credit, debt));
      customers := customers[customerId := customer.(creditBalance := credit, totalDebt := debt)];
      sales := sales + [sale];
      nextId := nextId + 1;
      if upfront > 0 {
        var payment := Payment(nextId, customerId, upfront, paymentType.value);
        payments := payments + [payment];
        links := links + [SalePaymentLink(sale.id, payment.id, Min(upfront, total))];
        nextId := nextId + 1;
      }
      assert State() == AfterSale(before, customerId, items, upfront, paymentType, catalog);
    }
  }

  /** The work of Store.AddPayment on the books as a value. */
  method PostPayment(b: Books, customerId: nat, amount: Cents, paymentType: PaymentType) returns (after: Books, payment: Payment)
    requires customerId in b.customers
    ensures after == AfterPayment(b, customerId, amount, paymentType)
    ensures payment == Payment(b.nextId, customerId, amount, paymentType)
  {
    var customer := b.customers[customerId];
    var due := Outstanding(b.sales, customerId);
    OutstandingIncreasing(b.sales, customerId);

    payment := Payment(b.nextId, customerId, amount, paymentType);
    var pool := amount + customer.creditBalance;
    var paid, totalAllocated, leftover, newLinks := SpendOnSales(b.sales, due, pool, payment.id);

    var debt := customer.totalDebt - totalAllocated;
    if debt < 0 {
      debt := 0;
    }
    var credit := if leftover > 0 then leftover else 0;
    var updated := customer.(creditBalance := credit, totalDebt := debt);
    after := Books(b.customers[customerId := updated], paid, b.payments + [payment], b.links + newLinks, b.nextId + 1);
    PostedBooks(b, customerId, amount, paymentType, due, pool, paid, totalAllocated, leftover, newLinks, credit, debt);
  }

  /** The books PostPayment builds from the spending's outcome are AfterPayment's. */
  lemma PostedBooks(b: Books, customerId: nat, amount: Cents, paymentType: PaymentType, due: seq<nat>, pool: Cents,
                    paid: seq<Sale>, totalAllocated: Cents, leftover: Cents, newLinks: seq<SalePaymentLink>,
                    credit: Cents, debt: Cents)
    requires customerId in b.customers
    requires due == Outstanding(b.sales, customerId) && pool == amount + b.customers[customerId].creditBalance
    requires var a := Allocate(pool, OpenBalances(b.sales, due));
      paid == PayAll(b.sales, due, a.applied) && totalAllocated == Sum(a.applied) &&
      leftover == a.leftover && newLinks == LinksFor(b.sales, due, b.nextId, a.applied)
    requires credit == (if leftover > 0 then leftover else 0)
    requires debt == Max(0, b.customers[customerId].totalDebt - totalAllocated)
    ensures Books(b.customers[customerId := b.customers[customerId].(creditBalance := credit, totalDebt := debt)], paid,
                  b.payments + [Payment(b.nextId, customerId, amount, paymentType)], b.links + newLinks, b.nextId + 1)
            == AfterPayment(b, customerId, amount, paymentType)
  {
    PostedCustomers(b, customerId, amount, paymentType, due, pool, totalAllocated, leftover, credit, debt);
    PostedRows(b, customerId, amount, paymentType, due, pool, paid, newLinks);
  }

  lemma PostedCustomers(b: Books, customerId: nat, amount: Cents, paymentType: PaymentType, due: seq<nat>, pool: Cents,
                        totalAllocated: Cents, leftover: Cents, credit: Cents, debt: Cents)
    requires customerId in b.customers
    requires due == Outstanding(b.sales, customerId) && pool == amount + b.customers[customerId].creditBalance
    requires var a := Allocate(pool, OpenBalances(b.sales, due));
      totalAllocated == Sum(a.applied) && leftover == a.leftover
    requires credit == (if leftover > 0 then leftover else 0)
    requires debt == Max(0, b.customers[customerId].totalDebt - totalAllocated)
    ensures b.customers[customerId := b.customers[customerId].(creditBalance := credit, totalDebt := debt)]
            == AfterPayment(b, customerId, amount, paymentType).customers
  {
    var c := b.customers[customerId];
    var open := OpenBalances(b.sales, due);
    assert c.(creditBalance := credit, totalDebt := debt) == c.WithBalances(ApplyPayment(c.Balances(), amount, open)) by {
      PaymentBalances(c.Balances(), amount, open, totalAllocated, leftover);
    }
    assert AfterPayment(b, customerId, amount, paymentType).customers == b.customers[customerId := c.WithBalances(ApplyPayment(c.Balances(), amount, open))];
  }

  lemma PostedRows(b: Books, customerId: nat, amount: Cents, paymentType: PaymentType, due: seq<nat>, pool: Cents,
                   paid: seq<Sale>, newLinks: seq<SalePaymentLink>)
    requires customerId in b.customers
    requires due == Outstanding(b.sales, customerId) && pool == amount + b.customers[customerId].creditBalance
    requires var a := Allocate(pool, OpenBalances(b.sales, due));
      paid == PayAll(b.sales, due, a.applied) && newLinks == LinksFor(b.sales, due, b.nextId, a.applied)
    ensures paid == AfterPayment(b, customerId, amount, paymentType).sales
    ensures b.links + newLinks == AfterPayment(b, customerId, amount, paymentType).links
  {
  }

  /** Customers are keyed by their id, have ids below next, and their balances are not negative. */
  ghost predicate CustomersValid(customers: map<nat, Customer>, next: nat)
  {
    forall k :: k in customers ==> customers[k].id == k && k < next && customers[k].Balances().Valid()
  }

  /** Every sale is valid and belongs to a customer; sales are in creation order with distinct ids below next. */
  ghost predicate SalesValid(sales: seq<Sale>, customers: map<nat, Customer>, next: nat)
  {
    (forall i :: 0 <= i < |sales| ==>
       sales[i].Valid() && sales[i].id < next && sales[i].createdAt < next && sales[i].customerId in customers) &&
    Ascending(sales)
  }

  /** Ids and creation stamps strictly increase along the sales. */
  ghost predicate Ascending(sales: seq<Sale>)
    decreases |sales|
  {
    |sales| < 2 ||
    (var n := |sales| - 1;
     Ascending(sales[..n]) && sales[n - 1].id < sales[n].id && sales[n - 1].createdAt < sales[n].createdAt)
  }

  /** Any earlier sale has a smaller id and creation stamp than any later one. */
  lemma {:induction false} AscendingAt(sales: seq<Sale>, i: nat, j: nat)
    decreases |sales|
    requires Ascending(sales) && i < j < |sales|
    ensures sales[i].id < sales[j].id && sales[i].createdAt < sales[j].createdAt
  {
    var n := |sales| - 1;
    if j < n {
      AscendingAt(sales[..n], i, j);
    } else if i < n - 1 {
      AscendingAt(sales[..n], i, n - 1);
    }
  }

  /** Ascending depends only on the ids and creation stamps. */
  lemma {:induction false} AscendingKept(sales: seq<Sale>, sales': seq<Sale>)
    decreases |sales|
    requires Ascending(sales) && |sales'| == |sales|
    requires forall i :: 0 <= i < |sales| ==> sales'[i].id == sales[i].id && sales'[i].createdAt == sales[i].createdAt
    ensures Ascending(sales')
  {
    if |sales| >= 2 {
      var n := |sales| - 1;
      AscendingKept(sales[..n], sales'[..n]);
    }
  }

  /** Payments are positive and have distinct ids below next. */
  ghost predicate PaymentsValid(payments: seq<Payment>, next: nat)
  {
    (forall i :: 0 <= i < |payments| ==> payments[i].amount > 0 && payments[i].id < next) &&
    (forall i, j :: 0 <= i < j < |payments| ==> payments[i].id != payments[j].id)
  }

  /** Links name payments below next, and at most one link per (sale, payment) pair. */
  ghost predicate LinksValid(links: seq<SalePaymentLink>, next: nat)
  {
    (forall i :: 0 <= i < |links| ==> links[i].paymentId < next) &&
    (forall i, j :: 0 <= i < j < |links| ==>
       links[i].saleId != links[j].saleId || links[i].paymentId != links[j].paymentId)
  }

  /** Giving a known customer new valid balances keeps the customers valid, also under a larger next id. */
  lemma UpdateCustomerValid(customers: map<nat, Customer>, next: nat, next': nat, id: nat, p: Position)
    requires CustomersValid(customers, next) && id in customers && p.Valid() && next <= next'
    ensures CustomersValid(customers[id := customers[id].WithBalances(p)], next')
  {
  }

  /** The allocation of a pool over a customer's open sales never pays a sale more than it owes, and pays every sale reached that owes something. */
  lemma AllocationFitsSales(sales: seq<Sale>, customerId: nat, pool: Cents, due: seq<nat>, applied: seq<Cents>)
    requires forall i :: 0 <= i < |sales| ==> sales[i].Valid()
    requires pool >= 0
    requires due == Outstanding(sales, customerId) && applied == Allocate(pool, OpenBalances(sales, due)).applied
    ensures |applied| <= |due|
    ensures forall k :: 0 <= k < |applied| ==>
      0 <= applied[k] <= sales[due[k]].Owed() && (sales[due[k]].Owed() > 0 ==> applied[k] > 0)
  {
    AllocateBounded(pool, OpenBalances(sales, due));
  }

  /** Paying listed sales keeps the sales valid, against customers with the same ids and a next id at least as large. */
  lemma PayKeepsSales(sales: seq<Sale>, customers: map<nat, Customer>, customers': map<nat, Customer>,
                      next: nat, next': nat, due: seq<nat>, applied: seq<Cents>)
    requires SalesValid(sales, customers, next)
    requires customers'.Keys == customers.Keys && next <= next'
    requires |applied| <= |due|
    requires forall k :: 0 <= k < |due| ==> due[k] < |sales|
    requires forall j, l :: 0 <= j < l < |due| ==> due[j] < due[l]
    requires forall k :: 0 <= k < |applied| ==>
      0 <= applied[k] <= sales[due[k]].Owed() && (sales[due[k]].Owed() > 0 ==> applied[k] > 0)
    ensures SalesValid(PayAll(sales, due, applied), customers', next')
  {
    PayAllValid(sales, due, applied);
    PayAllKeepsRows(sales, due, applied);
    AscendingKept(sales, PayAll(sales, due, applied));
  }

  /** The rows AfterPayment writes, one table at a time. */
  lemma AfterPaymentRows(b: Books, customerId: nat, amount: Cents, paymentType: PaymentType, due: seq<nat>, applied: seq<Cents>)
    requires customerId in b.customers
    requires due == Outstanding(b.sales, customerId)
    requires applied == Allocate(amount + b.customers[customerId].creditBalance, OpenBalances(b.sales, due)).applied
    ensures var after := AfterPayment(b, customerId, amount, paymentType);
      after.customers.Keys == b.customers.Keys && after.sales == PayAll(b.sales, due, applied) &&
      after.links == b.links + LinksFor(b.sales, due, b.nextId, applied) && after.nextId == b.nextId + 1
  {
  }

  /** Recording a payment for a known customer keeps the books valid. */
  lemma PaymentKeepsBooks(b: Books, customerId: nat, amount: Cents, paymentType: PaymentType)
    requires b.Valid() && customerId in b.customers && amount > 0
    ensures AfterPayment(b, customerId, amount, paymentType).Valid()
  {
    var after := AfterPayment(b, customerId, amount, paymentType);
    var due := Outstanding(b.sales, customerId);
    var applied := Allocate(amount + b.customers[customerId].creditBalance, OpenBalances(b.sales, due)).applied;
    AfterPaymentRows(b, customerId, amount, paymentType, due, applied);
    PaymentKeepsCustomers(b, customerId, amount, paymentType);
    PaymentKeepsSales(b, customerId, amount, due, applied, after);
    PaymentKeepsLinks(b, customerId, amount, due, applied, after);
  }

  lemma PaymentKeepsCustomers(b: Books, customerId: nat, amount: Cents, paymentType: PaymentType)
    requires b.Valid() && customerId in b.customers && amount > 0
    ensures var after := AfterPayment(b, customerId, amount, paymentType);
      CustomersValid(after.customers, after.nextId)
  {
    var c := b.customers[customerId];
    var open := OpenBalances(b.sales, Outstanding(b.sales, customerId));
    UpdateCustomerValid(b.customers, b.nextId, b.nextId + 1, customerId, ApplyPayment(c.Balances(), amount, open));
  }

  lemma PaymentKeepsSales(b: Books, customerId: nat, amount: Cents, due: seq<nat>, applied: seq<Cents>, after: Books)
    requires SalesValid(b.sales, b.customers, b.nextId) && customerId in b.customers
    requires b.customers[customerId].creditBalance >= 0 && amount > 0
    requires due == Outstanding(b.sales, customerId)
    requires applied == Allocate(amount + b.customers[customerId].creditBalance, OpenBalances(b.sales, due)).applied
    requires after.customers.Keys == b.customers.Keys && after.sales == PayAll(b.sales, due, applied) && after.nextId == b.nextId + 1
    ensures SalesValid(after.sales, after.customers, after.nextId)
  {
    OutstandingIncreasing(b.sales, customerId);
    AllocationFitsSales(b.sales, customerId, amount + b.customers[customerId].creditBalance, due, applied);
    PayKeepsSales(b.sales, b.customers, after.customers, b.nextId, after.nextId, due, applied);
  }

  lemma PaymentKeepsLinks(b: Books, customerId: nat, amount: Cents, due: seq<nat>, applied: seq<Cents>, after: Books)
    requires LinksValid(b.links, b.nextId) && Ascending(b.sales) && customerId in b.customers
    requires due == Outstanding(b.sales, customerId)
    requires applied == Allocate(amount + b.customers[customerId].creditBalance, OpenBalances(b.sales, due)).applied
    requires after.links == b.links + LinksFor(b.sales, due, b.nextId, applied) && after.nextId == b.nextId + 1
    ensures LinksValid(after.links, after.nextId)
  {
    OutstandingIncreasing(b.sales, customerId);
    NewLinksValid(b.links, b.sales, due, b.nextId, applied);
  }

  /** Appending one new payment's links, each to a different sale, keeps the links valid. */
  lemma AppendLinksValid(links: seq<SalePaymentLink>, made: seq<SalePaymentLink>, next: nat)
    requires LinksValid(links, next)
    requires forall k :: 0 <= k < |made| ==> made[k].paymentId == next
    requires forall k, l :: 0 <= k < l < |made| ==> made[k].saleId != made[l].saleId
    ensures LinksValid(links + made, next + 1)
  {
    var all := links + made;
    forall i | 0 <= i < |all|
      ensures all[i].paymentId < next + 1
    {
      if i < |links| {
        assert all[i] == links[i];
      } else {
        assert all[i] == made[i - |links|];
      }
    }
    forall i, j | 0 <= i < j < |all|
      ensures all[i].saleId != all[j].saleId || all[i].paymentId != all[j].paymentId
    {
      if j < |links| {
        assert all[i] == links[i] && all[j] == links[j];
      } else if i < |links| {
        assert all[i] == links[i] && all[j] == made[j - |links|];
      } else {
        assert all[i] == made[i - |links|] && all[j] == made[j - |links|];
      }
    }
  }

  /** Every link written for a payment names that payment. */
  lemma {:induction false} LinksForPayment(sales: seq<Sale>, due: seq<nat>, paymentId: nat, applied: seq<Cents>)
    requires |applied| <= |due|
    requires forall k :: 0 <= k < |due| ==> due[k] < |sales|
    ensures forall k :: 0 <= k < |applied| ==> LinksFor(sales, due, paymentId, applied)[k].paymentId == paymentId
  {
    if applied != [] {
      LinksForPayment(sales, due, paymentId, applied[..|applied| - 1]);
    }
  }

  /** Two links made for one payment name different sales. */
  lemma NewLinksDistinct(sales: seq<Sale>, due: seq<nat>, next: nat, applied: seq<Cents>, k: nat, l: nat)
    requires |applied| <= |due|
    requires forall j :: 0 <= j < |due| ==> due[j] < |sales|
    requires forall j, m :: 0 <= j < m < |due| ==> due[j] < due[m]
    requires Ascending(sales)
    requires k < l < |applied|
    ensures LinksFor(sales, due, next, applied)[k].saleId != LinksFor(sales, due, next, applied)[l].saleId
  {
    LinksForAt(sales, due, next, applied, k);
    LinksForAt(sales, due, next, applied, l);
    AscendingAt(sales, due[k], due[l]);
  }

  /** Links for a new payment, one per distinct sale, keep the links valid once next moves past the payment's id. */
  lemma NewLinksValid(links: seq<SalePaymentLink>, sales: seq<Sale>, due: seq<nat>, next: nat, applied: seq<Cents>)
    requires LinksValid(links, next)
    requires |applied| <= |due|
    requires forall k :: 0 <= k < |due| ==> due[k] < |sales|
    requires forall j, l :: 0 <= j < l < |due| ==> due[j] < due[l]
    requires Ascending(sales)
    ensures LinksValid(links + LinksFor(sales, due, next, applied), next + 1)
  {
    var made := LinksFor(sales, due, next, applied);
    LinksForPayment(sales, due, next, applied);
    forall k, l | 0 <= k < l < |made|
      ensures made[k].saleId != made[l].saleId
    {
      NewLinksDistinct(sales, due, next, applied, k, l);
    }
    AppendLinksValid(links, made, next);
  }

  /**
   * The arithmetic create_sale does once the customer is found: the new
   * sale is paid from the upfront payment plus the existing credit, and
   * whatever the sale did not need pays the aggregate debt and then becomes
   * credit, while a shortfall is added to the debt. It agrees with
   * NewSaleTerms and BalanceAfterSale.
   */
  method SettleNewSale(p: Position, upfront: Cents, total: Cents)
    returns (amountPaid: Cents, status: SaleStatus, creditUsed: Cents, credit: Cents, debt: Cents)
    requires p.Valid() && total >= 0
    ensures SaleTerms(amountPaid, status, creditUsed) == NewSaleTerms(p.credit, upfront, total)
    ensures Position(credit, debt) == BalanceAfterSale(p, upfront, total)
  {
    var effective := upfront + p.credit;
    var applied := Min(effective, total);
    creditUsed := Max(0, applied - upfront);
    if applied >= total {
      status, amountPaid := FullyPaid, total;
    } else if applied > 0 {
      status, amountPaid := PartiallyPaid, applied;
    } else {
      status, amountPaid := Unpaid, 0;
    }

    var remaining := effective - applied;
    var newDebt := total - applied;
    credit, debt := p.credit, p.debt;
    if remaining > 0 {
      if debt > 0 {
        if remaining >= debt {
          credit, debt := remaining - debt, 0;
        } else {
          credit, debt := 0, debt - remaining;
        }
      } else {
        credit := remaining;
      }
    } else {
      credit, debt := 0, debt + newDebt;
    }
  }

  /** A sale request that create_sale carries through: every item prices, the customer exists, and an upfront payment names its type. */
  predicate SaleAccepted(b: Books, customerId: nat, items: seq<ItemInput>, upfront: Cents,
                         paymentType: Option<PaymentType>, catalog: Catalog)
  {
    (forall j :: 0 <= j < |items| ==> Resolves(items[j], catalog)) &&
    customerId in b.customers && (upfront > 0 ==> paymentType.Some?)
  }

  /**
   * The books after a new sale: the sale, priced from the items, takes the
   * next id and is paid by NewSaleTerms from the upfront payment and the
   * customer's credit; the customer's balances become BalanceAfterSale of the
   * old ones; a positive upfront payment is recorded under the id after the
   * sale's, with a link for the part of it the sale used.
   */
  function AfterSale(b: Books, customerId: nat, items: seq<ItemInput>, upfront: Cents,
                     paymentType: Option<PaymentType>, catalog: Catalog): (after: Books)
    requires SaleAccepted(b, customerId, items, upfront, paymentType, catalog)
    requires b.customers[customerId].Balances().Valid() && catalog.Valid()
    requires forall j :: 0 <= j < |items| ==> items[j].quantity > 0
    ensures after.customers.Keys == b.customers.Keys
    ensures |after.sales| == |b.sales| + 1 && after.sales[|b.sales|].customerId == customerId
    ensures after.sales[|b.sales|].id == b.nextId && |after.sales[|b.sales|].items| == |items|
    ensures upfront > 0 ==> |after.payments| == |b.payments| + 1 && |after.links| == |b.links| + 1
    ensures upfront <= 0 ==> after.payments == b.payments && after.links == b.links
  {
    PricedTotalNonNegative(items, catalog);
    var c := b.customers[customerId];
    var lines := PricedLines(items, catalog);
    var total := SumTotals(lines);
    var t := NewSaleTerms(c.creditBalance, upfront, total);
    var sale := Sale(b.nextId, customerId, b.nextId, total, t.amountPaid, t.creditApplied, paymentType, t.status, lines);
    var customers := b.customers[customerId := c.WithBalances(BalanceAfterSale(c.Balances(), upfront, total))];
    match UpfrontLink(upfront, total)
    case None => Books(customers, b.sales + [sale], b.payments, b.links, b.nextId + 1)
    case Some(linked) =>
      Books(customers, b.sales + [sale], b.payments + [Payment(b.nextId + 1, customerId, upfront, paymentType.value)],
            b.links + [SalePaymentLink(b.nextId, b.nextId + 1, linked)], b.nextId + 2)
  }

  /** Creating a sale keeps the books valid. */
  lemma SaleKeepsBooks(b: Books, customerId: nat, items: seq<ItemInput>, upfront: Cents,
                       paymentType: Option<PaymentType>, catalog: Catalog)
    requires b.Valid() && catalog.Valid()
    requires SaleAccepted(b, customerId, items, upfront, paymentType, catalog)
    requires forall j :: 0 <= j < |items| ==> items[j].quantity > 0
    ensures AfterSale(b, customerId, items, upfront, paymentType, catalog).Valid()
  {
    PricedTotalNonNegative(items, catalog);
    var after := AfterSale(b, customerId, items, upfront, paymentType, catalog);
    var c := b.customers[customerId];
    var total := SumTotals(PricedLines(items, catalog));
    UpdateCustomerValid(b.customers, b.nextId, after.nextId, customerId, BalanceAfterSale(c.Balances(), upfront, total));
    var n := |b.sales|;
    assert after.sales[..n] == b.sales;
    if n > 0 {
      assert b.sales[n - 1].id < b.nextId && b.sales[n - 1].createdAt < b.nextId;
    }
    assert Ascending(after.sales);
    if upfront > 0 {
      assert after.payments == b.payments + [Payment(b.nextId + 1, customerId, upfront, paymentType.value)];
      assert after.links == b.links + [SalePaymentLink(b.nextId, b.nextId + 1, Min(upfront, total))];
      AppendLinksValid(b.links, [SalePaymentLink(b.nextId, b.nextId + 1, Min(upfront, total))], b.nextId + 1);
    }
  }

  /**
   * A new sale moves its customer's net standing (credit minus debt) by
   * exactly the upfront payment less the sale's total, leaves the customer
   * in credit or in debt but not both, and changes no other customer, no
   * older sale, and no older payment or link.
   */
  lemma SaleNetPosition(b: Books, customerId: nat, items: seq<ItemInput>, upfront: Cents,
                        paymentType: Option<PaymentType>, catalog: Catalog)
    requires b.Valid() && catalog.Valid()
    requires SaleAccepted(b, customerId, items, upfront, paymentType, catalog)
    requires forall j :: 0 <= j < |items| ==> items[j].quantity > 0
    ensures var after := AfterSale(b, customerId, items, upfront, paymentType, catalog);
      var total := after.sales[|b.sales|].totalAmount;
      after.customers.Keys == b.customers.Keys &&
      after.customers[customerId].Balances().Net() == b.customers[customerId].Balances().Net() + upfront - total &&
      after.customers[customerId].Balances().Settled() &&
      (forall k :: k in b.customers && k != customerId ==> after.customers[k] == b.customers[k]) &&
      |after.sales| == |b.sales| + 1 && after.sales[..|b.sales|] == b.sales &&
      after.payments[..|b.payments|] == b.payments && after.links[..|b.links|] == b.links
  {
    PricedTotalNonNegative(items, catalog);
    var after := AfterSale(b, customerId, items, upfront, paymentType, catalog);
    assert after.sales[..|b.sales|] == b.sales;
    assert after.payments[..|b.payments|] == b.payments;
    assert after.links[..|b.links|] == b.links;
  }

  /**
   * With a non-negative upfront payment, the new sale's paid amount is
   * accounted for exactly by the credit it drew plus the link its upfront
   * payment left (none when nothing was paid upfront), and the upfront
   * payment is at least what its link applied.
   */
  lemma SaleLinksReconcile(b: Books, customerId: nat, items: seq<ItemInput>, upfront: Cents,
                           paymentType: Option<PaymentType>, catalog: Catalog)
    requires b.Valid() && catalog.Valid() && upfront >= 0
    requires SaleAccepted(b, customerId, items, upfront, paymentType, catalog)
    requires forall j :: 0 <= j < |items| ==> items[j].quantity > 0
    ensures var after := AfterSale(b, customerId, items, upfront, paymentType, catalog);
      var sale := after.sales[|b.sales|];
      var added := after.links[|b.links|..];
      |added| <= 1 &&
      (added == [] ==> upfront == 0 && sale.creditApplied == sale.amountPaid) &&
      (added != [] ==> added[0].saleId == sale.id && added[0].amountApplied <= upfront &&
                       sale.creditApplied + added[0].amountApplied == sale.amountPaid)
  {
    PricedTotalNonNegative(items, catalog);
    var total := SumTotals(PricedLines(items, catalog));
    SaleReconciles(b.customers[customerId].creditBalance, upfront, total);
    var after := AfterSale(b, customerId, items, upfront, paymentType, catalog);
    if upfront > 0 {
      assert after.links[|b.links|..] == [SalePaymentLink(b.nextId, b.nextId + 1, Min(upfront, total))];
    } else {
      assert after.links[|b.links|..] == [];
    }
  }

  /**
   * A payment touches only the paying customer's sales that were not fully
   * paid: every other sale, and every fully paid one, is left as it was.
   */
  lemma PaymentLeavesOthers(b: Books, customerId: nat, amount: Cents, paymentType: PaymentType, i: nat)
    requires customerId in b.customers && i < |b.sales|
    requires b.sales[i].customerId != customerId || b.sales[i].status == FullyPaid
    ensures AfterPayment(b, customerId, amount, paymentType).sales[i] == b.sales[i]
  {
    var due := Outstanding(b.sales, customerId);
    var applied := Allocate(amount + b.customers[customerId].creditBalance, OpenBalances(b.sales, due)).applied;
    OutstandingSound(b.sales, customerId);
    assert i !in due[..|applied|];
    PayAllUntouched(b.sales, due, applied, i);
  }

  /**
   * The k-th link a payment writes names the k-th open sale of the customer,
   * oldest first, and its amount is exactly what that sale's paid amount
   * rose by; the sale is fully paid afterwards exactly when the link covered
   * what it owed.
   */
  lemma PaymentLinksMatch(b: Books, customerId: nat, amount: Cents, paymentType: PaymentType, k: nat)
    requires customerId in b.customers
    requires k < |AfterPayment(b, customerId, amount, paymentType).links| - |b.links|
    ensures var after := AfterPayment(b, customerId, amount, paymentType);
      var due := Outstanding(b.sales, customerId);
      var link := after.links[|b.links| + k];
      k < |due| && link.saleId == b.sales[due[k]].id && link.paymentId == b.nextId &&
      after.sales[due[k]].amountPaid == b.sales[due[k]].amountPaid + link.amountApplied &&
      (after.sales[due[k]].status == FullyPaid <==> link.amountApplied >= b.sales[due[k]].Owed())
  {
    var after := AfterPayment(b, customerId, amount, paymentType);
    var due := Outstanding(b.sales, customerId);
    var applied := Allocate(amount + b.customers[customerId].creditBalance, OpenBalances(b.sales, due)).applied;
    AfterPaymentRows(b, customerId, amount, paymentType, due, applied);
    LinksMatchOn(b, after, customerId, applied, k);
  }

  /** PaymentLinksMatch, for any books whose links and sales were written from one allocation. */
  lemma LinksMatchOn(b: Books, after: Books, customerId: nat, applied: seq<Cents>, k: nat)
    requires |applied| <= |Outstanding(b.sales, customerId)|
    requires after.links == b.links + LinksFor(b.sales, Outstanding(b.sales, customerId), b.nextId, applied)
    requires after.sales == PayAll(b.sales, Outstanding(b.sales, customerId), applied)
    requires k < |after.links| - |b.links|
    ensures var due := Outstanding(b.sales, customerId);
      var link := after.links[|b.links| + k];
      k < |due| && link.saleId == b.sales[due[k]].id && link.paymentId == b.nextId &&
      after.sales[due[k]].amountPaid == b.sales[due[k]].amountPaid + link.amountApplied &&
      (after.sales[due[k]].status == FullyPaid <==> link.amountApplied >= b.sales[due[k]].Owed())
  {
    var due := Outstanding(b.sales, customerId);
    var made := LinksFor(b.sales, due, b.nextId, applied);
    assert k < |applied| <= |due|;
    var s := b.sales[due[k]];
    assert made[k] == SalePaymentLink(s.id, b.nextId, applied[k]) && after.sales[due[k]] == PaySale(s, applied[k]) by {
      PaymentReaches(b.sales, customerId, b.nextId, applied, k);
    }
    assert after.links[|b.links| + k] == made[k];
    PaySaleRaises(s, applied[k]);
  }

  /** The k-th link and the k-th paid sale of one payment refer to the same open sale. */
  lemma PaymentReaches(sales: seq<Sale>, customerId: nat, paymentId: nat, applied: seq<Cents>, k: nat)
    requires |applied| <= |Outstanding(sales, customerId)| && k < |applied|
    ensures var due := Outstanding(sales, customerId);
      k < |due| &&
      LinksFor(sales, due, paymentId, applied)[k] == SalePaymentLink(sales[due[k]].id, paymentId, applied[k]) &&
      PayAll(sales, due, applied)[due[k]] == PaySale(sales[due[k]], applied[k])
  {
    var due := Outstanding(sales, customerId);
    LinksForAt(sales, due, paymentId, applied, k);
    OutstandingIncreasing(sales, customerId);
    PayAllReached(sales, due, applied, k);
  }

  /** A payment raises a sale's paid amount by what it applied, and leaves it fully paid exactly when that covered what it owed. */
  lemma PaySaleRaises(s: Sale, applied: Cents)
    ensures PaySale(s, applied).amountPaid == s.amountPaid + applied
    ensures PaySale(s, applied).status == FullyPaid <==> applied >= s.Owed()
  {
  }

  /** Storing a new customer under the next id keeps the books valid. */
  lemma CustomerKeepsBooks(b: Books, name: string)
    requires b.Valid()
    ensures b.nextId !in b.customers
    ensures Books(b.customers[b.nextId := Customer(b.nextId, name, 0, 0)], b.sales, b.payments, b.links, b.nextId + 1).Valid()
  {
    var customers := b.customers[b.nextId := Customer(b.nextId, name, 0, 0)];
    NewCustomerValid(b.customers, b.nextId, name);
    SalesValidGrow(b.sales, b.customers, customers, b.nextId, b.nextId + 1);
    PaymentsValidGrow(b.payments, b.nextId, b.nextId + 1);
    LinksValidGrow(b.links, b.nextId, b.nextId + 1);
  }

  lemma NewCustomerValid(customers: map<nat, Customer>, next: nat, name: string)
    requires CustomersValid(customers, next)
    ensures next !in customers
    ensures CustomersValid(customers[next := Customer(next, name, 0, 0)], next + 1)
  {
    var c := Customer(next, name, 0, 0);
    var m := customers[next := c];
    forall k | k in m
      ensures m[k].id == k && k < next + 1 && m[k].Balances().Valid()
    {
      if k == next {
        assert m[k] == c && m[k].Balances() == Position(0, 0);
      } else {
        assert k in customers;
      }
    }
  }

  lemma PaymentsValidGrow(payments: seq<Payment>, next: nat, next': nat)
    requires PaymentsValid(payments, next) && next <= next'
    ensures PaymentsValid(payments, next')
  {
  }

  lemma LinksValidGrow(links: seq<SalePaymentLink>, next: nat, next': nat)
    requires LinksValid(links, next) && next <= next'
    ensures LinksValid(links, next')
  {
  }

  /** Valid sales stay valid against more customers and a larger next id. */
  lemma SalesValidGrow(sales: seq<Sale>, customers: map<nat, Customer>, customers': map<nat, Customer>, next: nat, next': nat)
    requires SalesValid(sales, customers, next)
    requires customers.Keys <= customers'.Keys && next <= next'
    ensures SalesValid(sales, customers', next')
  {
  }

  /** What the customer's sales still owe, all of them, in store order. */
  function OwedBy(sales: seq<Sale>, customerId: nat): Cents
  {
    if sales == [] then 0
    else
      var n := |sales| - 1;
      OwedBy(sales[..n], customerId) + (if sales[n].customerId == customerId then sales[n].Owed() else 0)
  }

  /** What payments have applied to a sale, summed over the audit links naming it. */
  function LinkedTo(links: seq<SalePaymentLink>, saleId: nat): Cents
  {
    if links == [] then 0
    else
      var n := |links| - 1;
      LinkedTo(links[..n], saleId) + (if links[n].saleId == saleId then links[n].amountApplied else 0)
  }

  /** Every customer's recorded debt is no more than what their sales still owe. */
  ghost predicate DebtCovered(b: Books)
  {
    forall k :: k in b.customers ==> b.customers[k].totalDebt <= OwedBy(b.sales, k)
  }

  /**
   * Every link names a sale already created, and every sale's paid amount is
   * exactly the credit it drew plus what the links naming it applied.
   */
  ghost predicate Reconciled(b: Books)
  {
    (forall i :: 0 <= i < |b.links| ==> b.links[i].saleId < b.nextId) &&
    forall i :: 0 <= i < |b.sales| ==> b.sales[i].creditApplied + LinkedTo(b.links, b.sales[i].id) == b.sales[i].amountPaid
  }

  /** Valid sales owe nothing negative. */
  lemma {:induction false} OwedByNonNegative(sales: seq<Sale>, customerId: nat)
    requires forall i :: 0 <= i < |sales| ==> sales[i].Valid()
    ensures OwedBy(sales, customerId) >= 0
  {
    if sales != [] {
      OwedByNonNegative(sales[..|sales| - 1], customerId);
    }
  }

  /** A new last sale adds what it owes to its own customer's amount owed and nothing to anyone else's. */
  lemma OwedByAppend(sales: seq<Sale>, x: Sale, customerId: nat)
    ensures OwedBy(sales + [x], customerId) == OwedBy(sales, customerId) + (if x.customerId == customerId then x.Owed() else 0)
  {
    assert (sales + [x])[..|sales|] == sales;
  }

  /** Replacing one sale changes a customer's amount owed by the difference of what the two sales owe them. */
  lemma {:induction false} OwedByUpdate(sales: seq<Sale>, i: nat, x: Sale, customerId: nat)
    requires i < |sales|
    ensures OwedBy(sales[i := x], customerId) ==
      OwedBy(sales, customerId) - (if sales[i].customerId == customerId then sales[i].Owed() else 0)
                                + (if x.customerId == customerId then x.Owed() else 0)
  {
    var n := |sales| - 1;
    if i == n {
      assert sales[i := x][..n] == sales[..n];
    } else {
      assert sales[i := x][..n] == sales[..n][i := x];
      OwedByUpdate(sales[..n], i, x, customerId);
    }
  }

  /**
   * Paying sales of one customer lowers what that customer's sales owe by
   * everything handed out, and leaves every other customer's amount owed.
   */
  lemma {:induction false} OwedByPayAll(sales: seq<Sale>, due: seq<nat>, applied: seq<Cents>, payer: nat, customerId: nat)
    requires |applied| <= |due|
    requires forall k :: 0 <= k < |due| ==> due[k] < |sales| && sales[due[k]].customerId == payer
    ensures OwedBy(PayAll(sales, due, applied), customerId) ==
      OwedBy(sales, customerId) - (if customerId == payer then Sum(applied) else 0)
  {
    if applied != [] {
      var n := |applied| - 1;
      var prev := PayAll(sales, due, applied[..n]);
      OwedByPayAll(sales, due, applied[..n], payer, customerId);
      PayAllKeepsRows(sales, due, applied[..n]);
      OwedByUpdate(prev, due[n], PaySale(prev[due[n]], applied[n]), customerId);
      SumAppend(applied[..n], applied[n]);
      assert applied[..n] + [applied[n]] == applied;
    }
  }

  /** The open balances the payment walks add up to what the customer's sales owe. */
  lemma {:induction false} OpenSumIsOwed(sales: seq<Sale>, customerId: nat)
    requires forall i :: 0 <= i < |sales| ==> sales[i].Valid()
    ensures Sum(OpenBalances(sales, Outstanding(sales, customerId))) == OwedBy(sales, customerId)
  {
    if sales != [] {
      var n := |sales| - 1;
      var rest := Outstanding(sales[..n], customerId);
      OpenSumIsOwed(sales[..n], customerId);
      assert OpenBalances(sales, rest) == OpenBalances(sales[..n], rest);
      if sales[n].customerId == customerId && sales[n].status != FullyPaid {
        assert OpenBalances(sales, rest + [n]) == OpenBalances(sales, rest) + [sales[n].Owed()];
        SumAppend(OpenBalances(sales, rest), sales[n].Owed());
      }
    }
  }

  /** The links of two runs of writes, taken together. */
  lemma {:induction false} LinkedToConcat(links: seq<SalePaymentLink>, more: seq<SalePaymentLink>, saleId: nat)
    ensures LinkedTo(links + more, saleId) == LinkedTo(links, saleId) + LinkedTo(more, saleId)
  {
    if more == [] {
      assert links + more == links;
    } else {
      var n := |more| - 1;
      assert (links + more)[..|links| + n] == links + more[..n];
      LinkedToConcat(links, more[..n], saleId);
    }
  }

  /** No link names a sale whose id is not yet drawn. */
  lemma {:induction false} LinkedToFresh(links: seq<SalePaymentLink>, saleId: nat)
    requires forall i :: 0 <= i < |links| ==> links[i].saleId < saleId
    ensures LinkedTo(links, saleId) == 0
  {
    if links != [] {
      LinkedToFresh(links[..|links| - 1], saleId);
    }
  }

  /** The links a payment writes name each sale with exactly what its paid amount rose by. */
  lemma {:induction false} LinkedToPayAll(sales: seq<Sale>, due: seq<nat>, paymentId: nat, applied: seq<Cents>, i: nat)
    requires |applied| <= |due|
    requires forall k :: 0 <= k < |due| ==> due[k] < |sales|
    requires Ascending(sales) && i < |sales|
    ensures LinkedTo(LinksFor(sales, due, paymentId, applied), sales[i].id) ==
      PayAll(sales, due, applied)[i].amountPaid - sales[i].amountPaid
  {
    if applied != [] {
      var n := |applied| - 1;
      var made := LinksFor(sales, due, paymentId, applied[..n]);
      var link := SalePaymentLink(sales[due[n]].id, paymentId, applied[n]);
      LinkedToPayAll(sales, due, paymentId, applied[..n], i);
      assert (made + [link])[..|made|] == made;
      if due[n] < i {
        AscendingAt(sales, due[n], i);
      } else if i < due[n] {
        AscendingAt(sales, i, due[n]);
      }
    }
  }

  /**
   * A paying customer whose debt is within what their sales owe ends within
   * what they owe after the allocation, and in credit or in debt but not both.
   */
  lemma PayerCovered(sales: seq<Sale>, c: Customer, amount: Cents)
    requires forall i :: 0 <= i < |sales| ==> sales[i].Valid()
    requires c.Balances().Valid() && amount > 0 && c.totalDebt <= OwedBy(sales, c.id)
    ensures var open := OpenBalances(sales, Outstanding(sales, c.id));
      var r := ApplyPayment(c.Balances(), amount, open);
      r.debt <= OwedBy(sales, c.id) - Sum(Allocate(amount + c.creditBalance, open).applied) && r.Settled()
  {
    var open := OpenBalances(sales, Outstanding(sales, c.id));
    OpenSumIsOwed(sales, c.id);
    PaymentSettles(c.Balances(), amount, open);
    RemainingSum(open, Allocate(amount + c.creditBalance, open).applied);
  }

  /**
   * A payment keeps every customer's debt within what their sales owe, and
   * so leaves the paying customer in credit or in debt but not both.
   */
  lemma PaymentKeepsDebtCovered(b: Books, customerId: nat, amount: Cents, paymentType: PaymentType)
    requires b.Valid() && DebtCovered(b) && customerId in b.customers && amount > 0
    ensures DebtCovered(AfterPayment(b, customerId, amount, paymentType))
    ensures AfterPayment(b, customerId, amount, paymentType).customers[customerId].Balances().Settled()
  {
    var after := AfterPayment(b, customerId, amount, paymentType);
    var c := b.customers[customerId];
    var due := Outstanding(b.sales, customerId);
    var applied := Allocate(amount + c.creditBalance, OpenBalances(b.sales, due)).applied;
    AfterPaymentRows(b, customerId, amount, paymentType, due, applied);
    OutstandingSound(b.sales, customerId);
    PayerCovered(b.sales, c, amount);
    forall k | k in after.customers
      ensures after.customers[k].totalDebt <= OwedBy(after.sales, k)
    {
      OwedByPayAll(b.sales, due, applied, customerId, k);
    }
  }

  /** A payment keeps every sale's paid amount equal to its credit drawn plus its links. */
  lemma PaymentKeepsReconciled(b: Books, customerId: nat, amount: Cents, paymentType: PaymentType)
    requires b.Valid() && Reconciled(b) && customerId in b.customers
    ensures Reconciled(AfterPayment(b, customerId, amount, paymentType))
  {
    var after := AfterPayment(b, customerId, amount, paymentType);
    var due := Outstanding(b.sales, customerId);
    var applied := Allocate(amount + b.customers[customerId].creditBalance, OpenBalances(b.sales, due)).applied;
    var made := LinksFor(b.sales, due, b.nextId, applied);
    AfterPaymentRows(b, customerId, amount, paymentType, due, applied);
    PayAllKeepsRows(b.sales, due, applied);
    forall i | 0 <= i < |after.links|
      ensures after.links[i].saleId < after.nextId
    {
      if i >= |b.links| {
        LinksForAt(b.sales, due, b.nextId, applied, i - |b.links|);
      }
    }
    forall i | 0 <= i < |after.sales|
      ensures after.sales[i].creditApplied + LinkedTo(after.links, after.sales[i].id) == after.sales[i].amountPaid
    {
      LinkedToConcat(b.links, made, b.sales[i].id);
      LinkedToPayAll(b.sales, due, b.nextId, applied, i);
    }
  }

  /** With a non-negative upfront payment, a new sale keeps every customer's debt within what their sales owe. */
  lemma SaleKeepsDebtCovered(b: Books, customerId: nat, items: seq<ItemInput>, upfront: Cents,
                             paymentType: Option<PaymentType>, catalog: Catalog)
    requires b.Valid() && DebtCovered(b) && catalog.Valid() && upfront >= 0
    requires SaleAccepted(b, customerId, items, upfront, paymentType, catalog)
    requires forall j :: 0 <= j < |items| ==> items[j].quantity > 0
    ensures DebtCovered(AfterSale(b, customerId, items, upfront, paymentType, catalog))
  {
    PricedTotalNonNegative(items, catalog);
    var after := AfterSale(b, customerId, items, upfront, paymentType, catalog);
    var c := b.customers[customerId];
    var total := SumTotals(PricedLines(items, catalog));
    var sale := after.sales[|b.sales|];
    assert after.sales == b.sales + [sale];
    SaleKeepsDebtWithinOpen(c.Balances(), upfront, total, OwedBy(b.sales, customerId));
    forall k | k in after.customers
      ensures after.customers[k].totalDebt <= OwedBy(after.sales, k)
    {
      OwedByAppend(b.sales, sale, k);
    }
  }

  /** With a non-negative upfront payment, a new sale keeps every sale reconciled with its links, itself included. */
  lemma SaleKeepsReconciled(b: Books, customerId: nat, items: seq<ItemInput>, upfront: Cents,
                            paymentType: Option<PaymentType>, catalog: Catalog)
    requires b.Valid() && Reconciled(b) && catalog.Valid() && upfront >= 0
    requires SaleAccepted(b, customerId, items, upfront, paymentType, catalog)
    requires forall j :: 0 <= j < |items| ==> items[j].quantity > 0
    ensures Reconciled(AfterSale(b, customerId, items, upfront, paymentType, catalog))
  {
    PricedTotalNonNegative(items, catalog);
    var after := AfterSale(b, customerId, items, upfront, paymentType, catalog);
    var total := SumTotals(PricedLines(items, catalog));
    var added := after.links[|b.links|..];
    assert after.links == b.links + added;
    if upfront > 0 {
      assert added == [SalePaymentLink(b.nextId, b.nextId + 1, Min(upfront, total))];
    } else {
      assert added == [];
    }
    SaleReconciles(b.customers[customerId].creditBalance, upfront, total);
    LinkedToFresh(b.links, b.nextId);
    forall i | 0 <= i < |after.links|
      ensures after.links[i].saleId < after.nextId
    {
      if i >= |b.links| {
        assert after.links[i] == added[i - |b.links|];
      }
    }
    forall i | 0 <= i < |after.sales|
      ensures after.sales[i].creditApplied + LinkedTo(after.links, after.sales[i].id) == after.sales[i].amountPaid
    {
      LinkedToConcat(b.links, added, after.sales[i].id);
      if i < |b.sales| {
        assert after.sales[i] == b.sales[i];
      }
    }
  }

  /** A new customer owes nothing, so storing one keeps the debts covered. */
  lemma CustomerKeepsDebtCovered(b: Books, name: string)
    requires b.Valid() && DebtCovered(b)
    ensures DebtCovered(Books(b.customers[b.nextId := Customer(b.nextId, name, 0, 0)], b.sales, b.payments, b.links, b.nextId + 1))
  {
    OwedByNonNegative(b.sales, b.nextId);
  }

  /** Storing a new customer keeps the books valid, the debts covered and the sales reconciled. */
  lemma CustomerKeepsLedger(b: Books, name: string)
    requires b.Valid()
    ensures b.nextId !in b.customers
    ensures var after := Books(b.customers[b.nextId := Customer(b.nextId, name, 0, 0)], b.sales, b.payments, b.links, b.nextId + 1);
      after.Valid() && (DebtCovered(b) ==> DebtCovered(after)) && (Reconciled(b) ==> Reconciled(after))
  {
    CustomerKeepsBooks(b, name);
    if DebtCovered(b) {
      CustomerKeepsDebtCovered(b, name);
    }
  }

  /** A payment keeps the books valid, the debts covered (the payer then settled) and the sales reconciled. */
  lemma PaymentKeepsLedger(b: Books, customerId: nat, amount: Cents, paymentType: PaymentType)
    requires b.Valid() && customerId in b.customers && amount > 0
    ensures var after := AfterPayment(b, customerId, amount, paymentType);
      after.Valid() &&
      (DebtCovered(b) ==> DebtCovered(after) && after.customers[customerId].Balances().Settled()) &&
      (Reconciled(b) ==> Reconciled(after))
  {
    PaymentKeepsBooks(b, customerId, amount, paymentType);
    if DebtCovered(b) {
      PaymentKeepsDebtCovered(b, customerId, amount, paymentType);
    }
    if Reconciled(b) {
      PaymentKeepsReconciled(b, customerId, amount, paymentType);
    }
  }

  /** A new sale keeps the books valid, and with a non-negative upfront payment the debts covered and the sales reconciled. */
  lemma SaleKeepsLedger(b: Books, customerId: nat, items: seq<ItemInput>, upfront: Cents,
                        paymentType: Option<PaymentType>, catalog: Catalog)
    requires b.Valid() && catalog.Valid()
    requires SaleAccepted(b, customerId, items, upfront, paymentType, catalog)
    requires forall j :: 0 <= j < |items| ==> items[j].quantity > 0
    ensures var after := AfterSale(b, customerId, items, upfront, paymentType, catalog);
      after.Valid() &&
      (upfront >= 0 && DebtCovered(b) ==> DebtCovered(after)) &&
      (upfront >= 0 && Reconciled(b) ==> Reconciled(after))
  {
    SaleKeepsBooks(b, customerId, items, upfront, paymentType, catalog);
    if upfront >= 0 && DebtCovered(b) {
      SaleKeepsDebtCovered(b, customerId, items, upfront, paymentType, catalog);
    }
    if upfront >= 0 && Reconciled(b) {
      SaleKeepsReconciled(b, customerId, items, upfront, paymentType, catalog);
    }
  }

  /** AfterSale written out from the sale's terms and the customer's new balances. */
  lemma SaleRows(b: Books, customerId: nat, items: seq<ItemInput>, upfront: Cents,
                 paymentType: Option<PaymentType>, catalog: Catalog, t: SaleTerms, p: Position)
    requires SaleAccepted(b, customerId, items, upfront, paymentType, catalog)
    requires b.customers[customerId].Balances().Valid() && catalog.Valid()
    requires forall j :: 0 <= j < |items| ==> items[j].quantity > 0
    requires var c := b.customers[customerId];
      var total := SumTotals(PricedLines(items, catalog));
      total >= 0 && t == NewSaleTerms(c.creditBalance, upfront, total) && p == BalanceAfterSale(c.Balances(), upfront, total)
    ensures var c := b.customers[customerId];
      var lines := PricedLines(items, catalog);
      var total := SumTotals(lines);
      var sale := Sale(b.nextId, customerId, b.nextId, total, t.amountPaid, t.creditApplied, paymentType, t.status, lines);
      var customers := b.customers[customerId := c.(creditBalance := p.credit, totalDebt := p.debt)];
      AfterSale(b, customerId, items, upfront, paymentType, catalog) ==
        if upfront > 0 then
          Books(customers, b.sales + [sale], b.payments + [Payment(b.nextId + 1, customerId, upfront, paymentType.value)],
                b.links + [SalePaymentLink(b.nextId, b.nextId + 1, Min(upfront, total))], b.nextId + 2)
        else Books(customers, b.sales + [sale], b.payments, b.links, b.nextId + 1)
  {
  }
}
