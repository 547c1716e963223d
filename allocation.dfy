/**
 * The ledger's allocation arithmetic, as pure functions over amounts in cents.
 *
 * Two services move money between a customer's aggregate balances (credit
 * and debt) and the per-sale paid amounts:
 *  - recording a payment walks the customer's open sales oldest-first and
 *    pays each from a pool made of the payment plus the existing credit
 *    (Allocate, ApplyPayment);
 *  - creating a sale pays the new sale from the upfront payment plus the
 *    existing credit, then runs a debt/credit "seesaw" on the customer
 *    (SaleTerms, BalanceAfterSale, UpfrontLink).
 * Module Ledger performs the same steps on objects and is specified by these
 * functions; the lemmas here state what the steps promise.
 */
module Allocation {
  import opened Wrappers
  import opened Money
  import opened Records

  /** A customer's two running balances: money overpaid, and money owed. */
  datatype Position = Position(credit: Cents, debt: Cents) {
    /** Neither balance is negative. */
    predicate Valid() { credit >= 0 && debt >= 0 }

    /** The customer is not in credit and in debt at the same time. */
    predicate Settled() { !(credit > 0 && debt > 0) }

    /** The customer's net standing: positive when in credit. */
    function Net(): int { credit - debt }
  }

  /** Result of walking a pool over open balances: what each visited sale got, and what is left. */
  datatype Allocation = Allocation(applied: seq<Cents>, leftover: Cents)

  /**
   * First-in-first-out allocation: stop as soon as the pool is not positive,
   * otherwise give the oldest balance min(pool, balance) and continue with the
   * rest. applied[i] is what the i-th balance received; sales after the last
   * visited one are not reached at all.
   */
  function Allocate(pool: Cents, balances: seq<Cents>): (a: Allocation)
    ensures |a.applied| <= |balances|
    decreases |balances|
  {
    if balances == [] || pool <= 0 then Allocation([], pool)
    else
      var applied := Min(pool, balances[0]);
      var rest := Allocate(pool - applied, balances[1..]);
      Allocation([applied] + rest.applied, rest.leftover)
  }

  /** No money is created or lost by the walk: what was handed out plus what is left is the pool. */
  lemma {:induction false} AllocateConserves(pool: Cents, balances: seq<Cents>)
    decreases |balances|
    ensures Sum(Allocate(pool, balances).applied) + Allocate(pool, balances).leftover == pool
  {
    if balances != [] && pool > 0 {
      var applied := Min(pool, balances[0]);
      var rest := Allocate(pool - applied, balances[1..]);
      AllocateConserves(pool - applied, balances[1..]);
      assert ([applied] + rest.applied)[1..] == rest.applied;
    }
  }

  /** One step of the walk: a positive pool pays the first balance and walks on with the rest. */
  lemma AllocateStep(pool: Cents, balances: seq<Cents>)
    requires balances != [] && pool > 0
    ensures var applied := Min(pool, balances[0]);
      Allocate(pool, balances).applied == [applied] + Allocate(pool - applied, balances[1..]).applied &&
      Allocate(pool, balances).leftover == Allocate(pool - applied, balances[1..]).leftover
  {
  }

  /**
   * Allocate read as a loop: the first i balances received done, and the
   * pool now holds rest; walking the remaining balances with rest finishes
   * the allocation.
   */
  ghost predicate Walked(pool: Cents, balances: seq<Cents>, done: seq<Cents>, rest: Cents, i: nat)
  {
    i <= |balances| &&
    Allocate(pool, balances).applied == done + Allocate(rest, balances[i..]).applied &&
    Allocate(pool, balances).leftover == Allocate(rest, balances[i..]).leftover
  }

  /** A positive pool pays balance i next, and the rest of the walk is unchanged. */
  lemma WalkStep(pool: Cents, balances: seq<Cents>, done: seq<Cents>, rest: Cents, i: nat)
    requires i < |balances| && rest > 0
    requires Walked(pool, balances, done, rest, i)
    ensures Walked(pool, balances, done + [Min(rest, balances[i])], rest - Min(rest, balances[i]), i + 1)
  {
    var x := Min(rest, balances[i]);
    assert balances[i..][1..] == balances[i + 1..];
    AllocateStep(rest, balances[i..]);
    var tail := Allocate(rest - x, balances[i + 1..]).applied;
    assert done + ([x] + tail) == (done + [x]) + tail;
  }

  /** The loop reading of Allocate ends when the balances or the pool run out, with what it has handed out. */
  lemma WalkDone(pool: Cents, balances: seq<Cents>, done: seq<Cents>, rest: Cents, i: nat)
    requires Walked(pool, balances, done, rest, i)
    requires i == |balances| || rest <= 0
    ensures Allocate(pool, balances) == Allocation(done, rest)
  {
    assert Allocate(rest, balances[i..]) == Allocation([], rest);
    assert done + [] == done;
  }

  /** The balances left after an allocation: visited ones reduced by what they received. */
  function Remaining(balances: seq<Cents>, applied: seq<Cents>): (r: seq<Cents>)
    requires |applied| <= |balances|
    ensures |r| == |balances|
    ensures forall i :: 0 <= i < |applied| ==> r[i] == balances[i] - applied[i]
    ensures forall i :: |applied| <= i < |balances| ==> r[i] == balances[i]
  {
    seq(|balances|, i requires 0 <= i < |balances| => if i < |applied| then balances[i] - applied[i] else balances[i])
  }

  /** A pool that starts non-negative never goes negative: no sale takes more than the pool holds. */
  lemma {:induction false} AllocateLeftover(pool: Cents, balances: seq<Cents>)
    decreases |balances|
    requires pool >= 0
    ensures Allocate(pool, balances).leftover >= 0
  {
    if balances != [] && pool > 0 {
      AllocateLeftover(pool - Min(pool, balances[0]), balances[1..]);
    }
  }

  /**
   * With a non-negative pool and non-negative balances, every visited sale
   * receives between 0 and its balance, and a positive balance receives a
   * positive amount.
   */
  lemma {:induction false} AllocateBounded(pool: Cents, balances: seq<Cents>)
    decreases |balances|
    requires pool >= 0
    requires forall i :: 0 <= i < |balances| ==> balances[i] >= 0
    ensures var a := Allocate(pool, balances);
      forall i :: 0 <= i < |a.applied| ==>
        0 <= a.applied[i] <= balances[i] && (balances[i] > 0 ==> a.applied[i] > 0)
  {
    if balances != [] && pool > 0 {
      var applied := Min(pool, balances[0]);
      AllocateBounded(pool - applied, balances[1..]);
      var rest := Allocate(pool - applied, balances[1..]);
      var a := Allocate(pool, balances);
      assert a.applied == [applied] + rest.applied;
      forall i | 0 <= i < |a.applied|
        ensures 0 <= a.applied[i] <= balances[i] && (balances[i] > 0 ==> a.applied[i] > 0)
      {
        if i > 0 {
          assert a.applied[i] == rest.applied[i - 1] && balances[i] == balances[1..][i - 1];
        }
      }
    }
  }

  /**
   * Oldest first: a sale receives money only if every older sale in the list
   * was brought to fully paid; only the last visited sale may be left short.
   */
  lemma {:induction false} AllocateFifo(pool: Cents, balances: seq<Cents>)
    decreases |balances|
    ensures var a := Allocate(pool, balances);
      forall i :: 0 <= i < |a.applied| - 1 ==> a.applied[i] == balances[i]
  {
    if balances != [] && pool > 0 {
      var applied := Min(pool, balances[0]);
      AllocateFifo(pool - applied, balances[1..]);
      var rest := Allocate(pool - applied, balances[1..]);
      var a := Allocate(pool, balances);
      assert a.applied == [applied] + rest.applied;
      if |rest.applied| > 0 {
        assert pool - applied > 0;
        assert applied == balances[0];
      }
      forall i | 0 <= i < |a.applied| - 1
        ensures a.applied[i] == balances[i]
      {
        if i > 0 {
          assert a.applied[i] == rest.applied[i - 1] && balances[i] == balances[1..][i - 1];
        }
      }
    }
  }

  /**
   * The walk stops early only when the pool has run out; money is left over
   * only when every open balance was paid in full.
   */
  lemma {:induction false} AllocateStops(pool: Cents, balances: seq<Cents>)
    decreases |balances|
    ensures var a := Allocate(pool, balances);
      (|a.applied| < |balances| ==> a.leftover <= 0) &&
      (a.leftover > 0 ==> |a.applied| == |balances| &&
                          forall i :: 0 <= i < |balances| ==> a.applied[i] == balances[i])
  {
    if balances != [] && pool > 0 {
      var applied := Min(pool, balances[0]);
      AllocateStops(pool - applied, balances[1..]);
      var rest := Allocate(pool - applied, balances[1..]);
      var a := Allocate(pool, balances);
      assert a.applied == [applied] + rest.applied;
      if a.leftover > 0 {
        assert applied == balances[0];
        forall i | 0 <= i < |balances|
          ensures a.applied[i] == balances[i]
        {
          if i > 0 {
            assert a.applied[i] == rest.applied[i - 1] && balances[i] == balances[1..][i - 1];
          }
        }
      }
    }
  }

  /** What an allocation takes off the open balances is exactly what it hands out. */
  lemma {:induction false} RemainingSum(balances: seq<Cents>, applied: seq<Cents>)
    requires |applied| <= |balances|
    ensures Sum(Remaining(balances, applied)) == Sum(balances) - Sum(applied)
  {
    if applied != [] {
      var r := Remaining(balances, applied);
      RemainingSum(balances[1..], applied[1..]);
      assert r[1..] == Remaining(balances[1..], applied[1..]);
    } else {
      assert Remaining(balances, applied) == balances;
    }
  }

  /**
   * The customer's balances after a payment: the pool is the payment plus the
   * existing credit; the debt drops by what was allocated, clamped at zero; what
   * is left of the pool becomes the credit, clamped at zero.
   */
  function ApplyPayment(p: Position, amount: Cents, balances: seq<Cents>): (r: Position)
    ensures r.Valid()
  {
    var a := Allocate(amount + p.credit, balances);
    Position(if a.leftover > 0 then a.leftover else 0, Max(0, p.debt - Sum(a.applied)))
  }

  /** ApplyPayment in terms of what the allocation spent and left over. */
  lemma PaymentBalances(p: Position, amount: Cents, balances: seq<Cents>, spent: Cents, leftover: Cents)
    requires spent == Sum(Allocate(amount + p.credit, balances).applied)
    requires leftover == Allocate(amount + p.credit, balances).leftover
    ensures ApplyPayment(p, amount, balances) == Position(if leftover > 0 then leftover else 0, Max(0, p.debt - spent))
  {
  }

  /**
   * A payment changes the net standing by exactly the amount paid, less what
   * the clamp of the debt at zero throws away when more is allocated than the
   * aggregate debt records.
   */
  lemma PaymentNetChange(p: Position, amount: Cents, balances: seq<Cents>)
    requires p.Valid() && amount > 0
    ensures var a := Allocate(amount + p.credit, balances);
      ApplyPayment(p, amount, balances).Net() == p.Net() + amount - Max(0, Sum(a.applied) - p.debt)
  {
    var a := Allocate(amount + p.credit, balances);
    var spent := Sum(a.applied);
    AllocateLeftover(amount + p.credit, balances);
    AllocateConserves(amount + p.credit, balances);
    PaymentBalances(p, amount, balances, spent, a.leftover);
    ClampedNet(p, amount, spent, a.leftover);
  }

  /** The arithmetic of PaymentNetChange: clamping the debt at zero shifts the net by the overshoot. */
  lemma ClampedNet(p: Position, amount: Cents, spent: Cents, leftover: Cents)
    requires leftover >= 0 && spent + leftover == amount + p.credit
    ensures Position(if leftover > 0 then leftover else 0, Max(0, p.debt - spent)).Net() ==
            p.Net() + amount - Max(0, spent - p.debt)
  {
  }

  /**
   * Measured against the open balances themselves, a payment loses no money:
   * credit minus what is still owed rises by exactly the amount. When the
   * aggregate debt does not exceed the open balances, the payment keeps it so
   * and leaves the customer in credit or in debt but not both.
   */
  lemma PaymentSettles(p: Position, amount: Cents, balances: seq<Cents>)
    requires p.Valid() && amount > 0
    requires forall i :: 0 <= i < |balances| ==> balances[i] >= 0
    requires p.debt <= Sum(balances)
    ensures var a := Allocate(amount + p.credit, balances);
      var r := ApplyPayment(p, amount, balances);
      r.credit - Sum(Remaining(balances, a.applied)) == p.credit - Sum(balances) + amount &&
      r.debt <= Sum(Remaining(balances, a.applied)) &&
      r.Settled()
  {
    var a := Allocate(amount + p.credit, balances);
    var spent := Sum(a.applied);
    AllocateLeftover(amount + p.credit, balances);
    AllocateConserves(amount + p.credit, balances);
    RemainingSum(balances, a.applied);
    AllocateWithinOpen(amount + p.credit, balances);
    PaymentBalances(p, amount, balances, spent, a.leftover);
    ClampedSettles(p, amount, spent, a.leftover, Sum(balances));
  }

  /**
   * With non-negative balances, an allocation from a non-negative pool hands
   * out no more than the balances add up to, and all of it when money is left
   * over.
   */
  lemma AllocateWithinOpen(pool: Cents, balances: seq<Cents>)
    requires pool >= 0
    requires forall i :: 0 <= i < |balances| ==> balances[i] >= 0
    ensures var a := Allocate(pool, balances);
      Sum(a.applied) <= Sum(balances) && (a.leftover > 0 ==> Sum(a.applied) == Sum(balances))
  {
    var a := Allocate(pool, balances);
    AllocateBounded(pool, balances);
    RemainingSum(balances, a.applied);
    SumNonNegative(Remaining(balances, a.applied));
    AllocateStops(pool, balances);
    if a.leftover > 0 {
      assert a.applied == balances;
    }
  }

  /** The arithmetic of PaymentSettles. */
  lemma ClampedSettles(p: Position, amount: Cents, spent: Cents, leftover: Cents, open: Cents)
    requires p.Valid() && leftover >= 0 && spent + leftover == amount + p.credit
    requires p.debt <= open && open - spent >= 0 && (leftover > 0 ==> spent == open)
    ensures var r := Position(if leftover > 0 then leftover else 0, Max(0, p.debt - spent));
      r.credit - (open - spent) == p.credit - open + amount && r.debt <= open - spent && r.Settled()
  {
  }

  /** The paid amount, status and credit drawn for a new sale. */
  datatype SaleTerms = SaleTerms(amountPaid: Cents, status: SaleStatus, creditApplied: Cents)

  /**
   * A new sale is paid from the upfront payment plus the existing credit, up
   * to its total; the part beyond the upfront payment is credit drawn.
   */
  function NewSaleTerms(credit: Cents, upfront: Cents, total: Cents): (t: SaleTerms)
    requires credit >= 0 && total >= 0
    ensures t.amountPaid == Min(Max(0, upfront + credit), total)
    ensures StatusAgrees(t.status, t.amountPaid, total)
    ensures t.status == FullyPaid <==> upfront + credit >= total
    ensures 0 <= t.creditApplied <= credit
  {
    var effective := upfront + credit;
    var applied := Min(effective, total);
    var creditUsed := Max(0, applied - upfront);
    if applied >= total then SaleTerms(total, FullyPaid, creditUsed)
    else if applied > 0 then SaleTerms(applied, PartiallyPaid, creditUsed)
    else SaleTerms(0, Unpaid, creditUsed)
  }

  /**
   * The customer's balances after a new sale (the seesaw): whatever of the
   * pool the sale did not need pays down the aggregate debt and the rest
   * becomes credit; a shortfall is added to the debt.
   */
  function BalanceAfterSale(p: Position, upfront: Cents, total: Cents): (r: Position)
    requires p.Valid()
    ensures r.Valid() && r.Settled()
    ensures r.Net() == p.Net() + upfront - total
  {
    var effective := upfront + p.credit;
    var applied := Min(effective, total);
    var remaining := effective - applied;
    var newDebt := total - applied;
    if remaining > 0 then
      if p.debt > 0 then
        if remaining >= p.debt then Position(remaining - p.debt, 0)
        else Position(0, p.debt - remaining)
      else Position(remaining, p.debt)
    else Position(0, p.debt + newDebt)
  }

  /** The audit link an upfront payment gets: the part of it the new sale used. */
  function UpfrontLink(upfront: Cents, total: Cents): (link: Option<Cents>)
    requires total >= 0
    ensures link.Some? <==> upfront > 0
    ensures link.Some? ==> 0 <= link.value <= upfront && link.value <= total
  {
    if upfront > 0 then Some(Min(upfront, total)) else None
  }

  /**
   * With a non-negative upfront payment, the credit drawn plus the linked part
   * of the upfront payment account for exactly what the sale shows as paid.
   */
  lemma SaleReconciles(credit: Cents, upfront: Cents, total: Cents)
    requires credit >= 0 && total >= 0 && upfront >= 0
    ensures var t := NewSaleTerms(credit, upfront, total);
      var link := UpfrontLink(upfront, total);
      t.creditApplied + (if link.Some? then link.value else 0) == t.amountPaid
  {
    var t := NewSaleTerms(credit, upfront, total);
    if upfront > 0 {
      assert Min(upfront, total) == Min(Min(upfront + credit, total), upfront);
    }
  }

  /**
   * With a non-negative upfront payment, a new sale keeps the aggregate debt
   * within the open balances: it grows at most by what the new sale still owes.
   */
  lemma SaleKeepsDebtWithinOpen(p: Position, upfront: Cents, total: Cents, open: Cents)
    requires p.Valid() && total >= 0 && upfront >= 0
    requires p.debt <= open
    ensures BalanceAfterSale(p, upfront, total).debt
              <= open + (total - NewSaleTerms(p.credit, upfront, total).amountPaid)
  {
  }

  /**
   * A negative upfront payment, which nothing rejects, draws more credit than
   * the sale shows as paid: the excess is the smaller of the negative amount
   * and the credit there was, so it is nil only for a customer without credit.
   */
  lemma NegativeUpfrontOverstates(credit: Cents, upfront: Cents, total: Cents)
    requires credit >= 0 && total >= 0 && upfront < 0
    ensures var t := NewSaleTerms(credit, upfront, total);
      t.creditApplied - t.amountPaid == Min(-upfront, credit) &&
      (t.creditApplied > t.amountPaid <==> credit > 0)
  {
  }

  /**
   * The seesaw grows the aggregate debt by more than the new sale still owes
   * exactly when the upfront payment plus the credit is negative, and then by
   * that negative amount too.
   */
  lemma SaleOverstatesDebt(p: Position, upfront: Cents, total: Cents)
    requires p.Valid() && total >= 0
    ensures var owed := total - NewSaleTerms(p.credit, upfront, total).amountPaid;
      var r := BalanceAfterSale(p, upfront, total);
      (r.debt > p.debt + owed <==> upfront + p.credit < 0) &&
      (upfront + p.credit < 0 ==> r.debt == p.debt + owed - (upfront + p.credit))
  {
  }

  /**
   * A payment to a customer whose recorded debt is nil, while open sales
   * still owe at least the payment, vanishes from the balances: the sales
   * are paid but the clamp of the debt at zero discards the whole amount.
   * A sale whose surplus cleared the aggregate debt while older sales stayed
   * open (the seesaw) leaves a customer exactly so.
   */
  lemma PaymentLostToClamp(amount: Cents, balances: seq<Cents>)
    requires forall i :: 0 <= i < |balances| ==> balances[i] >= 0
    requires 0 < amount <= Sum(balances)
    ensures ApplyPayment(Position(0, 0), amount, balances) == Position(0, 0)
    ensures Sum(Allocate(amount, balances).applied) == amount
  {
    AllocateWithinOpen(amount, balances);
    AllocateLeftover(amount, balances);
    AllocateConserves(amount, balances);
  }

  /** The seesaw scenario of PaymentLostToClamp, with a debt of 100 and an older open sale of 100. */
  lemma SeesawThenPaymentLost()
    ensures BalanceAfterSale(Position(0, 100), 150, 50) == Position(0, 0)
    ensures ApplyPayment(Position(0, 0), 100, [100]) == Position(0, 0)
  {
    assert Sum([100]) == 100;
    PaymentLostToClamp(100, [100]);
  }

  /**
   * A sale with a negative upfront payment followed by a payment leaves the
   * customer in credit and in debt at once.
   */
  lemma NegativeUpfrontUnsettles()
    ensures BalanceAfterSale(Position(0, 0), -10, 100) == Position(0, 110)
    ensures !ApplyPayment(Position(0, 110), 200, [100]).Settled()
  {
    var a := Allocate(200, [100]);
    assert a == Allocation([100], 100);
    assert Sum([100]) == 100;
  }
}
