/** Properties relating the cart views to each other and to the cart totals. */
module CartProperties {
  import opened Wrappers
  import opened Sequences
  import opened Catalog
  import opened CartLines
  import opened Carts
  import opened CartViews

  /** Adding a product twice is the same as adding it once: the second add finds
      the line, keeps its quantity and attaches nothing. */
  lemma AddToCartIdempotent(catalog: seq<Product>, cart: Cart, slug: string)
    requires AddToCart(catalog, cart, slug).Ok?
    ensures AddToCart(catalog, AddToCart(catalog, cart, slug).value, slug) == AddToCart(catalog, cart, slug)
  {
  }

  /** Adding a product the cart lacks creates exactly one line, with quantity 1
      and total equal to the price, appended at the end of the collection. */
  lemma AddToCartCreatesOneLine(catalog: seq<Product>, cart: Cart, slug: string)
    requires Valid(cart)
    requires AddToCart(catalog, cart, slug).Ok?
    requires FindBySlug(catalog, slug).value.id !in cart.lines
    ensures var p := FindBySlug(catalog, slug).value;
            var c' := AddToCart(catalog, cart, slug).value;
            && c'.lines.Keys == cart.lines.Keys + {p.id}
            && c'.lines[p.id] == Line(p, 1, p.price)
            && c'.members == cart.members + [p.id]
            && ProductsInCart(c') == ProductsInCart(cart) + [p]
  {
  }

  /** With a well-formed catalog, adding a product found by its slug never fails. */
  lemma AddToCartSucceedsOnFoundProduct(catalog: seq<Product>, cart: Cart, slug: string)
    requires WellFormed(catalog)
    requires FindBySlug(catalog, slug).Ok?
    ensures AddToCart(catalog, cart, slug).Ok?
  {
  }

  /** Deleting the line of a product just added to a cart that lacked it gives back
      the cart's original rows, collection and header. */
  lemma DeleteUndoesAdd(catalog: seq<Product>, cart: Cart, slug: string)
    requires Valid(cart)
    requires AddToCart(catalog, cart, slug).Ok?
    requires FindBySlug(catalog, slug).value.id !in cart.lines
    ensures var r := DeleteFromCart(catalog, AddToCart(catalog, cart, slug).value, slug);
            && r.Ok?
            && r.value.lines == cart.lines
            && r.value.members == cart.members
            && SameHeader(cart, r.value)
  {
    var p := FindBySlug(catalog, slug).value;
    var c' := AddToCart(catalog, cart, slug).value;
    assert p.id !in cart.members;
    WithoutUndoesAttach(cart.members, p.id);
    assert c'.lines - {p.id} == cart.lines;
  }

  /** A deleted line is gone: deleting it a second time raises. */
  lemma DeleteTwiceFails(catalog: seq<Product>, cart: Cart, slug: string)
    requires DeleteFromCart(catalog, cart, slug).Ok?
    ensures DeleteFromCart(catalog, DeleteFromCart(catalog, cart, slug).value, slug) == Err(NoLine)
  {
  }

  /** Deleting the line attached at position `i` cuts exactly that position out of
      the collection; the remaining lines keep their order. */
  lemma DeleteKeepsOrder(catalog: seq<Product>, cart: Cart, slug: string, i: nat)
    requires Valid(cart)
    requires DeleteFromCart(catalog, cart, slug).Ok?
    requires i < |cart.members| && cart.members[i] == FindBySlug(catalog, slug).value.id
    ensures DeleteFromCart(catalog, cart, slug).value.members == cart.members[..i] + cart.members[i + 1..]
  {
    WithoutAt(cart.members, i);
  }

  /** Setting the same quantity twice is the same as setting it once. */
  lemma ChangeQtyIdempotent(catalog: seq<Product>, cart: Cart, slug: string, qty: int)
    requires ChangeQty(catalog, cart, slug, qty).Ok?
    ensures ChangeQty(catalog, ChangeQty(catalog, cart, slug, qty).value, slug, qty) == ChangeQty(catalog, cart, slug, qty)
  {
    var p := FindBySlug(catalog, slug).value;
    var c1 := ChangeQty(catalog, cart, slug, qty).value;
    assert c1.lines[p.id := Save(p, qty).value] == c1.lines;
  }

  /** Setting quantity 1 on a just-created line leaves it as created. */
  lemma ChangeQtyOneAfterAdd(catalog: seq<Product>, cart: Cart, slug: string)
    requires AddToCart(catalog, cart, slug).Ok?
    requires FindBySlug(catalog, slug).value.id !in cart.lines
    ensures ChangeQty(catalog, AddToCart(catalog, cart, slug).value, slug, 1) == AddToCart(catalog, cart, slug)
  {
    var p := FindBySlug(catalog, slug).value;
    var c' := AddToCart(catalog, cart, slug).value;
    assert c'.lines[p.id := Line(p, 1, p.price)] == c'.lines;
  }

  /** Quantity 0 is accepted: the line stays, with total 0. */
  lemma ChangeQtyZeroKeepsLine(catalog: seq<Product>, cart: Cart, slug: string)
    requires FindBySlug(catalog, slug).Ok?
    requires FindBySlug(catalog, slug).value.id in cart.lines
    ensures ChangeQty(catalog, cart, slug, 0).Ok?
    ensures var p := FindBySlug(catalog, slug).value;
            ChangeQty(catalog, cart, slug, 0).value.lines[p.id] == Line(p, 0, 0)
  {
  }

  // ---------------------------------------------------------------------------
  // Effect of each view on the cart totals.

  /** Adding a new product adds one item and the product's price. */
  lemma AddToCartTotals(catalog: seq<Product>, cart: Cart, slug: string)
    requires Valid(cart)
    requires AddToCart(catalog, cart, slug).Ok?
    requires FindBySlug(catalog, slug).value.id !in cart.lines
    ensures var c' := AddToCart(catalog, cart, slug).value;
            && TotalQty(c') == TotalQty(cart) + 1
            && TotalPrice(c') == TotalPrice(cart) + FindBySlug(catalog, slug).value.price
  {
    var p := FindBySlug(catalog, slug).value;
    var c' := AddToCart(catalog, cart, slug).value;
    assert p.id !in cart.members;
    assert c'.members == cart.members + [p.id];
    SumOverFrame(cart.members, cart.lines, c'.lines, (l: Line) => l.qty);
    SumOverFrame(cart.members, cart.lines, c'.lines, (l: Line) => l.finalPrice);
    SumOverAppend(cart.members, p.id, c'.lines, (l: Line) => l.qty);
    SumOverAppend(cart.members, p.id, c'.lines, (l: Line) => l.finalPrice);
  }

  /** Deleting a line removes its quantity and its total. */
  lemma DeleteFromCartTotals(catalog: seq<Product>, cart: Cart, slug: string)
    requires Valid(cart)
    requires DeleteFromCart(catalog, cart, slug).Ok?
    ensures var p := FindBySlug(catalog, slug).value;
            var c' := DeleteFromCart(catalog, cart, slug).value;
            && TotalQty(c') == TotalQty(cart) - cart.lines[p.id].qty
            && TotalPrice(c') == TotalPrice(cart) - cart.lines[p.id].finalPrice
  {
    var p := FindBySlug(catalog, slug).value;
    SumOverWithout(cart.members, cart.lines, p.id, (l: Line) => l.qty);
    SumOverWithout(cart.members, cart.lines, p.id, (l: Line) => l.finalPrice);
  }

  /** Changing a quantity shifts the totals by the change in that line alone. */
  lemma ChangeQtyTotals(catalog: seq<Product>, cart: Cart, slug: string, qty: int)
    requires Valid(cart)
    requires ChangeQty(catalog, cart, slug, qty).Ok?
    ensures var p := FindBySlug(catalog, slug).value;
            var c' := ChangeQty(catalog, cart, slug, qty).value;
            && TotalQty(c') == TotalQty(cart) - cart.lines[p.id].qty + qty
            && TotalPrice(c') == TotalPrice(cart) - cart.lines[p.id].finalPrice + qty * p.price
  {
    var p := FindBySlug(catalog, slug).value;
    var line := Save(p, qty).value;
    SumOverUpdate(cart.members, cart.lines, p.id, line, (l: Line) => l.qty);
    SumOverUpdate(cart.members, cart.lines, p.id, line, (l: Line) => l.finalPrice);
  }
}
