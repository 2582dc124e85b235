/** A cart line (one product in one cart) and the rule its save applies:
    the line total is always recomputed as quantity times the product's price. */
module CartLines {
  import opened Wrappers
  import opened Catalog

  /** One row of the cart-line table. `finalPrice` is in cents. The owning
      customer and cart are fixed by the cart that holds the line. */
  datatype Line = Line(product: Product, qty: int, finalPrice: int)

  /** Why the storage layer refuses to write a line. */
  datatype SaveError =
    | NegativeQty      // the positive-integer quantity column refuses values below 0
    | PriceOverflow    // the line total does not fit its 9-digit decimal column

  /** The quantity a freshly created line gets. */
  const DefaultQty: int := 1

  /** The line total agrees with the quantity and the product's price. */
  predicate PriceRule(l: Line)
  {
    l.finalPrice == l.qty * l.product.price
  }

  /** The line can be stored: its columns hold their values. */
  predicate Storable(l: Line)
  {
    l.qty >= 0 && FitsDecimal(l.finalPrice)
  }

  /** A line as it can exist in storage after a save. */
  predicate Sound(l: Line)
  {
    PriceRule(l) && Storable(l)
  }

  /** Saving a line for `product` with quantity `qty`: the total is recomputed
      before the write, and the write fails when a column cannot hold its value. */
  function Save(product: Product, qty: int): (r: Result<Line, SaveError>)
    ensures r.Ok? <==> qty >= 0 && FitsDecimal(qty * product.price)
    ensures r.Ok? ==> Sound(r.value) && r.value.product == product && r.value.qty == qty
    ensures r.Err? && qty < 0 ==> r.error == NegativeQty
  {
    if qty < 0 then Err(NegativeQty)
    else
      var line := Line(product, qty, qty * product.price);
      if FitsDecimal(line.finalPrice) then Ok(line) else Err(PriceOverflow)
  }

  /** Creating a line: the default quantity, then the save rule. */
  function Create(product: Product): (r: Result<Line, SaveError>)
    ensures r.Ok? <==> FitsDecimal(product.price)
    ensures r.Ok? ==> r.value == Line(product, 1, product.price)
  {
    Save(product, DefaultQty)
  }

  /** Saving a line again changes nothing exactly when it is already sound:
      every save re-establishes the price rule and keeps nothing else. */
  lemma SaveFixesSoundLines(l: Line)
    ensures Save(l.product, l.qty) == Ok(l) <==> Sound(l)
  {
  }
}
