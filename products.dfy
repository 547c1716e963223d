/**
 * The product catalogue's two writing operations: creating a product with
 * its sizes, and updating a product, which changes the scalar fields that
 * were sent and merges the sent size list into the product's sizes by size
 * name. Products and sizes are objects because the update changes them in
 * place: a size that is kept is the same row with a new price.
 */
module Products {
  import opened Wrappers
  import opened Money

  /** What a product is sold as (stored as "printing", "materials", "banner"). */
  datatype Category = Printing | Materials | Banner

  /** One size of a product and its price; only the price is ever changed after creation. */
  class ProductSize {
    const size: string
    var price: Cents
    const productId: nat

    constructor (size: string, price: Cents, productId: nat)
      ensures this.size == size && this.price == price && this.productId == productId
    {
      this.size := size;
      this.price := price;
      this.productId := productId;
    }
  }

  /** A size as a request sends it. */
  datatype SizeInput = SizeInput(size: string, price: Cents)

  /** A create request: every field is given. */
  datatype ProductInput = ProductInput(name: string, basePrice: Cents, category: Category, sizes: seq<SizeInput>)

  /**
   * A field of an update request: left out, sent as null, or sent with a
   * value. Only fields that were sent are written to the product.
   */
  datatype Field<T> = Unset | Null | Given(value: T)

  /** An update request; the size list is merged by size name when it is sent. */
  datatype ProductUpdate = ProductUpdate(name: Field<string>, basePrice: Field<Cents>, category: Field<Category>,
                                         sizes: Field<seq<SizeInput>>)

  /**
   * Why an update was refused. NothingToUpdate is answered with status 400.
   * ProductNotFound is raised with status 400 inside the handler's blanket
   * exception guard, so the caller receives it as a 500 "Update failed"; a
   * null written to a required column (name, base price, category) fails at
   * commit and is rolled back, also as a 500 "Update failed".
   */
  datatype ProductError = NothingToUpdate | ProductNotFound | NullColumn

  /**
   * The request names none of name, base price and sizes (a size list that
   * is left out reads as the empty list). A category alone does not count.
   */
  predicate NothingSent(u: ProductUpdate)
  {
    !u.name.Given? && !u.basePrice.Given? && (u.sizes.Unset? || u.sizes == Given([]))
  }

  /** The request writes null into a column that may not be null. */
  predicate WritesNull(u: ProductUpdate)
  {
    u.name.Null? || u.basePrice.Null? || u.category.Null?
  }

  /** The field's new value: the sent one, or the old one when nothing was sent. */
  function Updated<T>(f: Field<T>, old_: T): (v: T)
    requires !f.Null?
    ensures f.Given? ==> v == f.value
    ensures f.Unset? ==> v == old_
  {
    if f.Given? then f.value else old_
  }

  /**
   * The last size in the list with the given name: looking sizes up by name
   * in a dictionary built from the list keeps the last one of each name.
   */
  function LastNamed(sizes: seq<ProductSize>, name: string): (found: Option<ProductSize>)
    ensures found.Some? <==> exists i :: 0 <= i < |sizes| && sizes[i].size == name
    ensures found.Some? ==> found.value in sizes && found.value.size == name
  {
    if sizes == [] then None
    else if sizes[|sizes| - 1].size == name then Some(sizes[|sizes| - 1])
    else
      var found := LastNamed(sizes[..|sizes| - 1], name);
      assert forall i :: 0 <= i < |sizes| - 1 ==> sizes[..|sizes| - 1][i] == sizes[i];
      found
  }

  /** The price the last sent entry with the given name carries, if any entry has it. */
  function LastPrice(sent: seq<SizeInput>, name: string): (price: Option<Cents>)
    ensures price.Some? <==> exists j :: 0 <= j < |sent| && sent[j].size == name
  {
    if sent == [] then None
    else if sent[|sent| - 1].size == name then Some(sent[|sent| - 1].price)
    else
      var price := LastPrice(sent[..|sent| - 1], name);
      assert forall j :: 0 <= j < |sent| - 1 ==> sent[..|sent| - 1][j] == sent[j];
      price
  }

  /** When every sent name is distinct, a name's last price is the price sent with it. */
  lemma {:induction false} LastPriceDistinct(sent: seq<SizeInput>, j: nat)
    requires j < |sent|
    requires forall k, l :: 0 <= k < l < |sent| ==> sent[k].size != sent[l].size
    ensures LastPrice(sent, sent[j].size) == Some(sent[j].price)
  {
    if j < |sent| - 1 {
      var init := sent[..|sent| - 1];
      assert init[j] == sent[j];
      assert sent[|sent| - 1].size != sent[j].size;
      LastPriceDistinct(init, j);
    }
  }

  /** The price LastPrice gives for a name is the one the last entry with that name carries. */
  lemma {:induction false} LastPriceIsLastEntry(sent: seq<SizeInput>, j: nat)
    requires j < |sent|
    requires forall k :: j < k < |sent| ==> sent[k].size != sent[j].size
    ensures LastPrice(sent, sent[j].size) == Some(sent[j].price)
  {
    if j < |sent| - 1 {
      var init := sent[..|sent| - 1];
      assert init[j] == sent[j];
      LastPriceIsLastEntry(init, j);
    }
  }

  /**
   * The price a size row ends with after a merge of sent over existing: the
   * row that a sent name finds (the last row of that name) takes the last
   * price sent for the name; every other row keeps the price it had.
   */
  function PriceAfter(existing: seq<ProductSize>, sent: seq<SizeInput>, s: ProductSize, was: Cents): Cents
  {
    if LastNamed(existing, s.size) == Some(s) && LastPrice(sent, s.size).Some? then LastPrice(sent, s.size).value else was
  }

  /** One more sent entry changes the price of the one row it finds, and no other. */
  lemma PriceAfterStep(existing: seq<ProductSize>, sent: seq<SizeInput>, i: nat, s: ProductSize, was: Cents)
    requires i < |sent|
    ensures PriceAfter(existing, sent[..i + 1], s, was) ==
      if LastNamed(existing, sent[i].size) == Some(s) then sent[i].price else PriceAfter(existing, sent[..i], s, was)
  {
    assert sent[..i + 1][..i] == sent[..i];
    if LastNamed(existing, sent[i].size) == Some(s) {
      assert s.size == sent[i].size;
    }
  }

  class Product {
    const id: nat
    var name: string
    var basePrice: Cents
    var category: Category
    var sizes: seq<ProductSize>

    /**
     * A new product with exactly the sizes of the request, in order, each a
     * new size row that belongs to the product.
     */
    constructor (id: nat, input: ProductInput)
      ensures this.id == id && name == input.name && basePrice == input.basePrice && category == input.category
      ensures |sizes| == |input.sizes|
      ensures forall j :: 0 <= j < |sizes| ==>
        fresh(sizes[j]) && sizes[j].size == input.sizes[j].size && sizes[j].price == input.sizes[j].price &&
        sizes[j].productId == id
      ensures forall j, k :: 0 <= j < k < |sizes| ==> sizes[j] != sizes[k]
    {
      var made: seq<ProductSize> := [];
      for i := 0 to |input.sizes|
        invariant |made| == i
        invariant forall j :: 0 <= j < i ==>
          fresh(made[j]) && made[j].size == input.sizes[j].size && made[j].price == input.sizes[j].price &&
          made[j].productId == id
        invariant forall j, k :: 0 <= j < k < i ==> made[j] != made[k]
      {
        var s := new ProductSize(input.sizes[i].size, input.sizes[i].price, id);
        made := made + [s];
      }
      this.id := id;
      name := input.name;
      basePrice := input.basePrice;
      category := input.category;
      sizes := made;
    }

    /**
     * Merges a sent size list into the product's sizes by name. Entry j of
     * the result answers sent entry j: an existing size of that name (the
     * last one, when several share it) is kept, as the same row, and takes
     * the price of the last sent entry with its name; a name the product does
     * not have gets a new size row of the product. Sizes not named are
     * dropped from the list, and their prices are left alone.
     */
    method MergeSizes(sent: seq<SizeInput>)
      modifies this, sizes
      ensures name == old(name) && basePrice == old(basePrice) && category == old(category)
      ensures |sizes| == |sent|
      ensures forall j :: 0 <= j < |sent| ==> sizes[j].size == sent[j].size
      ensures forall j :: 0 <= j < |sent| ==>
        match LastNamed(old(sizes), sent[j].size)
        case Some(kept) => sizes[j] == kept
        case None => fresh(sizes[j]) && sizes[j].price == sent[j].price && sizes[j].productId == id
      ensures forall s :: s in old(sizes) ==> s.price == PriceAfter(old(sizes), sent, s, old(s.price))
    {
      var existing := sizes;
      var updated: seq<ProductSize> := [];
      for i := 0 to |sent|
        invariant |updated| == i
        invariant forall j :: 0 <= j < i ==> updated[j].size == sent[j].size
        invariant forall j :: 0 <= j < i ==>
          match LastNamed(existing, sent[j].size)
          case Some(kept) => updated[j] == kept
          case None => fresh(updated[j]) && updated[j].price == sent[j].price && updated[j].productId == id
        invariant forall s :: s in existing ==> s.price == PriceAfter(existing, sent[..i], s, old(s.price))
        modifies existing
      {
        var entry := sent[i];
        var found := LastNamed(existing, entry.size);
        forall s | s in existing
          ensures PriceAfter(existing, sent[..i + 1], s, old(s.price)) ==
            if found == Some(s) then entry.price else PriceAfter(existing, sent[..i], s, old(s.price))
        {
          PriceAfterStep(existing, sent, i, s, old(s.price));
        }
        if found.Some? {
          found.value.price := entry.price;
          updated := updated + [found.value];
        } else {
          var s := new ProductSize(entry.size, entry.price, id);
          updated := updated + [s];
        }
      }
      assert sent[..|sent|] == sent;
      sizes := updated;
    }
  }

  /**
   * update_product: a request naming none of name, base price and sizes is
   * refused before the product is looked up; a missing product is refused;
   * a null written to a required column is refused and rolled back. Otherwise
   * each scalar field that was sent is written, and a sent size list is
   * merged by MergeSizes; without one the sizes are untouched.
   */
  method UpdateProduct(product: Product?, u: ProductUpdate) returns (r: Result<Product, ProductError>)
    modifies product, if product != null then set s | s in product.sizes else {}
    ensures NothingSent(u) ==> r == Failure(NothingToUpdate)
    ensures !NothingSent(u) && product == null ==> r == Failure(ProductNotFound)
    ensures !NothingSent(u) && product != null && WritesNull(u) ==> r == Failure(NullColumn)
    ensures r.Failure? ==> product == null || (unchanged(product) && forall s :: s in product.sizes ==> unchanged(s))
    ensures r.Success? <==> !NothingSent(u) && product != null && !WritesNull(u)
    ensures r.Success? ==>
      r.value == product &&
      product.name == Updated(u.name, old(product.name)) &&
      product.basePrice == Updated(u.basePrice, old(product.basePrice)) &&
      product.category == Updated(u.category, old(product.category))
    ensures r.Success? && !u.sizes.Given? ==>
      product.sizes == old(product.sizes) && forall s :: s in product.sizes ==> unchanged(s)
    ensures r.Success? && u.sizes.Given? ==>
      var sent := u.sizes.value;
      |product.sizes| == |sent| &&
      (forall j :: 0 <= j < |sent| ==> product.sizes[j].size == sent[j].size) &&
      (forall j :: 0 <= j < |sent| ==>
        match LastNamed(old(product.sizes), sent[j].size)
        case Some(kept) => product.sizes[j] == kept && kept.price == LastPrice(sent, sent[j].size).value
        case None => fresh(product.sizes[j]) && product.sizes[j].price == sent[j].price &&
                     product.sizes[j].productId == product.id) &&
      (forall s :: s in old(product.sizes) && LastPrice(sent, s.size).None? ==> s.price == old(s.price))
  {
    if NothingSent(u) {
      return Failure(NothingToUpdate);
    }
    if product == null {
      return Failure(ProductNotFound);
    }
    if WritesNull(u) {
      return Failure(NullColumn);
    }
    product.name := Updated(u.name, product.name);
    product.basePrice := Updated(u.basePrice, product.basePrice);
    product.category := Updated(u.category, product.category);
    if u.sizes.Given? {
      ghost var before := product.sizes;
      product.MergeSizes(u.sizes.value);
      forall j | 0 <= j < |u.sizes.value| && LastNamed(before, u.sizes.value[j].size).Some?
        ensures LastPrice(u.sizes.value, u.sizes.value[j].size).Some?
      {
      }
    }
    r := Success(product);
  }
}
