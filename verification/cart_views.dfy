/** The three cart-mutating views as pure functions on one cart: add a product,
    delete a product's line, and change a line's quantity. Each first looks the
    product up by slug; an exception the view would raise becomes an `Err`, and
    then no write has happened, so the cart is the one the caller already has. */
module CartViews {
  import opened Wrappers
  import opened Sequences
  import opened Catalog
  import opened CartLines
  import opened Carts

  /** What a cart view raises. */
  datatype CartError =
    | NoProduct(lookup: LookupError)  // the slug lookup failed
    | NoLine                          // the cart has no line for the product
    | NotSaved(save: SaveError)       // the line write was refused

  /** The cart's identity, owner and flags are as in `a`. The cached totals are
      rewritten by the recalculation each view runs afterwards, so they are not compared. */
  predicate SameHeader(a: Cart, b: Cart)
  {
    && a.id == b.id && a.owner == b.owner
    && a.inOrder == b.inOrder && a.forAnonymousUser == b.forAnonymousUser
  }

  /** Rows of products other than `k` are the same in both carts. */
  predicate OtherRowsUnchanged(a: Cart, b: Cart, k: ProductId)
  {
    a.lines - {k} == b.lines - {k}
  }

  /** Add to cart: get or create the line for the product; only a line that was
      just created is attached to the cart's collection. */
  function AddToCart(catalog: seq<Product>, cart: Cart, slug: string): (r: Result<Cart, CartError>)
    ensures FindBySlug(catalog, slug).Err? ==> r == Err(NoProduct(FindBySlug(catalog, slug).error))
    ensures FindBySlug(catalog, slug).Ok? ==>
      var p := FindBySlug(catalog, slug).value;
      && (p.id in cart.lines ==>
            r.Ok? && r.value.lines == cart.lines && r.value.members == cart.members && SameHeader(cart, r.value))
      && (p.id !in cart.lines && !FitsDecimal(p.price) ==> r == Err(NotSaved(PriceOverflow)))
      && (p.id !in cart.lines && FitsDecimal(p.price) ==>
            && r.Ok?
            && r.value.lines == cart.lines[p.id := Line(p, 1, p.price)]
            && r.value.members == Attach(cart.members, p.id)
            && SameHeader(cart, r.value))
    ensures r.Ok? && Valid(cart) ==> Valid(r.value)
  {
    match FindBySlug(catalog, slug)
    case Err(e) => Err(NoProduct(e))
    case Ok(p) =>
      if p.id in cart.lines then Ok(cart)
      else
        match Create(p)
        case Err(e) => Err(NotSaved(e))
        case Ok(line) =>
          Ok(cart.(lines := cart.lines[p.id := line], members := Attach(cart.members, p.id)))
  }

  /** Delete from cart: the line must exist; it is detached from the collection
      and its row deleted. */
  function DeleteFromCart(catalog: seq<Product>, cart: Cart, slug: string): (r: Result<Cart, CartError>)
    ensures FindBySlug(catalog, slug).Err? ==> r == Err(NoProduct(FindBySlug(catalog, slug).error))
    ensures FindBySlug(catalog, slug).Ok? ==>
      var p := FindBySlug(catalog, slug).value;
      && (p.id !in cart.lines ==> r == Err(NoLine))
      && (p.id in cart.lines ==>
            && r.Ok?
            && r.value.lines.Keys == cart.lines.Keys - {p.id}
            && OtherRowsUnchanged(cart, r.value, p.id)
            && (forall k :: k in r.value.members <==> k in cart.members && k != p.id)
            && SameHeader(cart, r.value))
    ensures r.Ok? && Valid(cart) ==> Valid(r.value)
  {
    match FindBySlug(catalog, slug)
    case Err(e) => Err(NoProduct(e))
    case Ok(p) =>
      if p.id !in cart.lines then Err(NoLine)
      else Ok(cart.(members := Without(cart.members, p.id), lines := cart.lines - {p.id}))
  }

  /** Change quantity: the line must exist; its quantity is overwritten with no
      lower-bound check and the save recomputes its total. */
  function ChangeQty(catalog: seq<Product>, cart: Cart, slug: string, qty: int): (r: Result<Cart, CartError>)
    ensures FindBySlug(catalog, slug).Err? ==> r == Err(NoProduct(FindBySlug(catalog, slug).error))
    ensures FindBySlug(catalog, slug).Ok? ==>
      var p := FindBySlug(catalog, slug).value;
      && (p.id !in cart.lines ==> r == Err(NoLine))
      && (p.id in cart.lines && qty < 0 ==> r == Err(NotSaved(NegativeQty)))
      && (p.id in cart.lines && qty >= 0 && !FitsDecimal(qty * p.price) ==> r == Err(NotSaved(PriceOverflow)))
      && (p.id in cart.lines && qty >= 0 && FitsDecimal(qty * p.price) ==>
            && r.Ok?
            && p.id in r.value.lines
            && r.value.lines[p.id].qty == qty
            && r.value.lines[p.id].finalPrice == qty * p.price
            && r.value.lines.Keys == cart.lines.Keys
            && OtherRowsUnchanged(cart, r.value, p.id)
            && r.value.members == cart.members
            && SameHeader(cart, r.value))
    ensures r.Ok? && Valid(cart) ==> Valid(r.value)
  {
    match FindBySlug(catalog, slug)
    case Err(e) => Err(NoProduct(e))
    case Ok(p) =>
      if p.id !in cart.lines then Err(NoLine)
      else
        match Save(p, qty)
        case Err(e) => Err(NotSaved(e))
        case Ok(line) => Ok(cart.(lines := cart.lines[p.id := line]))
  }
}
