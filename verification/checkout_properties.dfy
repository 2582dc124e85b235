/** Properties of checkout: the lead-time boundary, what a placed order adds to
    the order table, and what it leaves alone. */
module CheckoutProperties {
  import opened Wrappers
  import opened Carts
  import opened Orders
  import opened Checkout

  /** A date two days ahead is refused; three days ahead is accepted: the boundary is inclusive. */
  lemma LeadTimeBoundary(store: Store, c: CustomerId, form: OrderForm, today: Day)
    ensures MakeOrder(store, Some(c), true, form.(orderDate := today + 2), today) == Step(Err(OrderDateTooEarly), store)
    ensures MakeOrder(store, Some(c), true, form.(orderDate := today + 3), today).reply.Ok?
  {
  }

  /** A placed order is the one new order of its cart, and the orders of every other cart stay as they were. */
  lemma MakeOrderAddsOneOrderForCart(store: Store, c: Option<CustomerId>, valid: bool, form: OrderForm, today: Day, other: CartId)
    requires MakeOrder(store, c, valid, form, today).reply.Ok?
    ensures var r := MakeOrder(store, c, valid, form, today);
            OrdersForCart(r.store.orders, store.cart.id) == OrdersForCart(store.orders, store.cart.id) + [r.reply.value]
    ensures var r := MakeOrder(store, c, valid, form, today);
            other != store.cart.id ==> OrdersForCart(r.store.orders, other) == OrdersForCart(store.orders, other)
  {
    var r := MakeOrder(store, c, valid, form, today);
    OrdersForCartAppend(store.orders, r.reply.value, store.cart.id);
    OrdersForCartAppend(store.orders, r.reply.value, other);
  }

  /** A placed order joins the requesting customer's orders, and no other customer's. */
  lemma MakeOrderJoinsCustomerOrders(store: Store, c: Option<CustomerId>, valid: bool, form: OrderForm, today: Day, other: CustomerId)
    requires MakeOrder(store, c, valid, form, today).reply.Ok?
    ensures var r := MakeOrder(store, c, valid, form, today);
            OrdersOf(r.store.orders, c.value) == OrdersOf(store.orders, c.value) + [r.reply.value]
    ensures var r := MakeOrder(store, c, valid, form, today);
            other != c.value ==> OrdersOf(r.store.orders, other) == OrdersOf(store.orders, other)
  {
    var r := MakeOrder(store, c, valid, form, today);
    OrdersOfAppend(store.orders, r.reply.value, c.value);
    OrdersOfAppend(store.orders, r.reply.value, other);
  }

  /** The new order's key is fresh, the key invariant is kept, and the cart's lines are untouched. */
  lemma MakeOrderKeepsInvariants(store: Store, c: Option<CustomerId>, valid: bool, form: OrderForm, today: Day)
    requires StoreValid(store)
    ensures var r := MakeOrder(store, c, valid, form, today);
            && StoreValid(r.store)
            && (r.reply.Ok? ==> forall o :: o in store.orders ==> o.id != r.reply.value.id)
            && r.store.cart.lines == store.cart.lines
            && r.store.cart.members == store.cart.members
            && (Valid(store.cart) ==> Valid(r.store.cart))
  {
  }

  /** Checkout checks neither that the cart has lines nor that it was already
      ordered: placing twice on one cart leaves two orders for it. */
  lemma MakeOrderTwiceOnOneCart(store: Store, c: CustomerId, form: OrderForm, today: Day)
    requires DateAccepted(form.orderDate, today)
    ensures var r1 := MakeOrder(store, Some(c), true, form, today);
            var r2 := MakeOrder(r1.store, Some(c), true, form, today);
            && r2.reply.Ok?
            && r2.store.cart.inOrder
            && |OrdersForCart(r2.store.orders, store.cart.id)| == |OrdersForCart(store.orders, store.cart.id)| + 2
  {
    var r1 := MakeOrder(store, Some(c), true, form, today);
    var r2 := MakeOrder(r1.store, Some(c), true, form, today);
    OrdersForCartAppend(store.orders, r1.reply.value, store.cart.id);
    OrdersForCartAppend(r1.store.orders, r2.reply.value, store.cart.id);
  }
}
