/**
 * Pricing the line items of a new sale: each item costs its size's price when
 * a size is named (the size must exist and belong to the product), otherwise
 * the product's base price; a line's total is quantity times unit price and
 * the sale's total is the sum of the lines.
 */
module Pricing {
  import opened Wrappers
  import opened Money
  import opened Records

  /** A size row as the sale service reads it: its product and its price. */
  datatype SizeRow = SizeRow(productId: nat, price: Cents)

  /** The product and size tables, keyed by id, as read during one sale. */
  datatype Catalog = Catalog(basePrices: map<nat, Cents>, sizes: map<nat, SizeRow>) {
    /** Base prices and size prices are positive. */
    predicate Valid() {
      (forall p :: p in basePrices ==> basePrices[p] > 0) &&
      (forall z :: z in sizes ==> sizes[z].price > 0)
    }
  }

  /** One requested line: a product, optionally one of its sizes, and a quantity. */
  datatype ItemInput = ItemInput(productId: nat, sizeId: Option<nat>, quantity: int)

  predicate ProductKnown(item: ItemInput, catalog: Catalog)
  {
    item.productId in catalog.basePrices
  }

  /** The item's product exists, and its size, if one is named, exists and belongs to it. */
  predicate Resolves(item: ItemInput, catalog: Catalog)
  {
    ProductKnown(item, catalog) &&
    (item.sizeId.Some? ==>
       item.sizeId.value in catalog.sizes && catalog.sizes[item.sizeId.value].productId == item.productId)
  }

  /** The unit price of a resolvable item. */
  function PriceOf(item: ItemInput, catalog: Catalog): Cents
    requires Resolves(item, catalog)
  {
    if item.sizeId.Some? then catalog.sizes[item.sizeId.value].price else catalog.basePrices[item.productId]
  }

  /** The priced line of a resolvable item. */
  function LineOf(item: ItemInput, catalog: Catalog): SaleItem
    requires Resolves(item, catalog)
  {
    SaleItem(item.productId, item.sizeId, item.quantity, PriceOf(item, catalog),
             item.quantity * PriceOf(item, catalog))
  }

  /** Every item priced, in order. */
  function PricedLines(items: seq<ItemInput>, catalog: Catalog): (lines: seq<SaleItem>)
    requires forall j :: 0 <= j < |items| ==> Resolves(items[j], catalog)
    ensures |lines| == |items|
  {
    seq(|items|, j requires 0 <= j < |items| => LineOf(items[j], catalog))
  }

  /** Line totals of positive quantities at positive prices add up to a non-negative total. */
  lemma {:induction false} SumTotalsNonNegative(lines: seq<SaleItem>)
    requires forall j :: 0 <= j < |lines| ==> lines[j].total >= 0
    ensures SumTotals(lines) >= 0
  {
    if lines != [] {
      SumTotalsNonNegative(lines[..|lines| - 1]);
    }
  }

  /** Positive quantities at the catalog's positive prices give a sale total that is not negative. */
  lemma PricedTotalNonNegative(items: seq<ItemInput>, catalog: Catalog)
    requires catalog.Valid()
    requires forall j :: 0 <= j < |items| ==> Resolves(items[j], catalog) && items[j].quantity > 0
    ensures SumTotals(PricedLines(items, catalog)) >= 0
  {
    var lines := PricedLines(items, catalog);
    forall j | 0 <= j < |lines| ensures lines[j].total >= 0 {
      assert lines[j] == LineOf(items[j], catalog);
    }
    SumTotalsNonNegative(lines);
  }

  /**
   * Prices the items: first every product must exist (the first unknown one is
   * reported), then every named size must exist and belong to its product (the
   * first bad one is reported). On success, line j is item j priced, and the
   * total is the sum of the line totals.
   */
  method PriceItems(items: seq<ItemInput>, catalog: Catalog) returns (r: Result<(seq<SaleItem>, Cents), LedgerError>)
    ensures r.Success? <==> forall j :: 0 <= j < |items| ==> Resolves(items[j], catalog)
    ensures (exists j :: 0 <= j < |items| && !ProductKnown(items[j], catalog)) ==> r.Failure? && r.error.ProductInvalid?
    ensures r.Failure? ==> match r.error
      case ProductInvalid(pid) =>
        exists k :: 0 <= k < |items| && items[k].productId == pid && !ProductKnown(items[k], catalog) &&
          forall j :: 0 <= j < k ==> ProductKnown(items[j], catalog)
      case SizeNotFound(sid, pid) =>
        (forall j :: 0 <= j < |items| ==> ProductKnown(items[j], catalog)) &&
        exists k :: 0 <= k < |items| && items[k].sizeId == Some(sid) && items[k].productId == pid &&
          !Resolves(items[k], catalog) && forall j :: 0 <= j < k ==> Resolves(items[j], catalog)
      case _ => false
    ensures r.Success? ==>
      var (lines, total) := r.value;
      |lines| == |items| &&
      (forall j :: 0 <= j < |items| ==> lines[j] == LineOf(items[j], catalog)) &&
      lines == PricedLines(items, catalog) &&
      total == SumTotals(lines)
    ensures r.Success? && catalog.Valid() && (forall j :: 0 <= j < |items| ==> items[j].quantity > 0) ==>
      r.value.1 >= 0
  {
    var k := 0;
    while k < |items|
      invariant 0 <= k <= |items|
      invariant forall j :: 0 <= j < k ==> ProductKnown(items[j], catalog)
    {
      if items[k].productId !in catalog.basePrices {
        return Failure(ProductInvalid(items[k].productId));
      }
      k := k + 1;
    }
    var lines: seq<SaleItem> := [];
    var total: Cents := 0;
    for i := 0 to |items|
      invariant |lines| == i
      invariant forall j :: 0 <= j < i ==> Resolves(items[j], catalog) && lines[j] == LineOf(items[j], catalog)
      invariant total == SumTotals(lines)
    {
      var item := items[i];
      var unitPrice := catalog.basePrices[item.productId];
      if item.sizeId.Some? {
        var sid := item.sizeId.value;
        if sid !in catalog.sizes || catalog.sizes[sid].productId != item.productId {
          return Failure(SizeNotFound(sid, item.productId));
        }
        unitPrice := catalog.sizes[sid].price;
      }
      var line := SaleItem(item.productId, item.sizeId, item.quantity, unitPrice, item.quantity * unitPrice);
      assert (lines + [line])[..|lines|] == lines;
      lines := lines + [line];
      total := total + line.total;
    }
    if catalog.Valid() && (forall j :: 0 <= j < |items| ==> items[j].quantity > 0) {
      forall j | 0 <= j < |lines| ensures lines[j].total >= 0 {
        assert lines[j] == LineOf(items[j], catalog);
      }
      SumTotalsNonNegative(lines);
    }
    return Success((lines, total));
  }
}
