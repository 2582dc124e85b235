/** Placing an order: the checkout view as one all-or-nothing step over the
    request's cart and the order table. */
module Checkout {
  import opened Wrappers
  import opened Carts
  import opened Orders

  /** The earliest acceptable delivery date is this many days after today. */
  const LeadTimeDays: int := 3

  /** The cleaned fields of the order form. */
  datatype OrderForm = OrderForm(
    firstName: string,
    lastName: string,
    phone: string,
    address: Option<string>,
    comment: Option<string>,
    orderDate: Day)

  /** The state checkout reads and writes: the request's cart, the order table
      in creation order, and the next primary key the table hands out. */
  datatype Store = Store(cart: Cart, orders: seq<Order>, nextOrderId: OrderId)

  /** Every existing order's key lies below the next key. */
  predicate StoreValid(s: Store)
  {
    forall o :: o in s.orders ==> o.id < s.nextOrderId
  }

  /** Why no order was placed. */
  datatype CheckoutError =
    | CustomerDoesNotExist  // the requesting user has no customer record: the view raises
    | FormInvalid           // the order form does not validate: back to the checkout page
    | OrderDateTooEarly     // the requested date is inside the lead time: back to the checkout page

  /** The reply (the placed order, or why none was) and the store afterwards. */
  datatype Step = Step(reply: Result<Order, CheckoutError>, store: Store)

  /** Whether `date` respects the lead time counted from `today`. */
  predicate DateAccepted(date: Day, today: Day)
  {
    date >= today + LeadTimeDays
  }

  /** The order a successful checkout creates: bound to the customer and the
      cart, copied from the form, with the default status. */
  function PlacedOrder(store: Store, customer: CustomerId, form: OrderForm): (o: Order)
    ensures o.id == store.nextOrderId && o.customer == customer
    ensures o.cart == Some(store.cart.id) && o.status == New && o.orderDate == form.orderDate
    ensures o.firstName == form.firstName && o.lastName == form.lastName && o.phone == form.phone
    ensures o.address == form.address && o.comment == form.comment
  {
    Order(store.nextOrderId, customer, form.firstName, form.lastName, form.phone,
          DefaultStatus, Some(store.cart.id), form.address, form.comment, form.orderDate)
  }

  /** Checkout. `customer` is the customer record of the requesting user, if any;
      `formValid` is the form's own validation, taken as given. Checks run in
      the view's order: customer, form, date. On success the order is created,
      the cart is marked ordered, and the order joins the customer's orders,
      together; on any failure the store is returned unchanged. */
  function MakeOrder(store: Store, customer: Option<CustomerId>, formValid: bool, form: OrderForm, today: Day): (r: Step)
    ensures r.reply.Err? ==> r.store == store
    ensures r.reply.Ok? <==> customer.Some? && formValid && DateAccepted(form.orderDate, today)
    ensures customer.None? ==> r.reply == Err(CustomerDoesNotExist)
    ensures customer.Some? && !formValid ==> r.reply == Err(FormInvalid)
    ensures customer.Some? && formValid && !DateAccepted(form.orderDate, today) ==> r.reply == Err(OrderDateTooEarly)
    ensures r.reply.Ok? ==>
      && r.reply.value == PlacedOrder(store, customer.value, form)
      && r.store.orders == store.orders + [r.reply.value]
      && r.store.cart == store.cart.(inOrder := true)
      && r.store.nextOrderId == store.nextOrderId + 1
  {
    match customer
    case None => Step(Err(CustomerDoesNotExist), store)
    case Some(c) =>
      if !formValid then Step(Err(FormInvalid), store)
      else if !DateAccepted(form.orderDate, today) then Step(Err(OrderDateTooEarly), store)
      else
        var order := PlacedOrder(store, c, form);
        Step(Ok(order), Store(store.cart.(inOrder := true), store.orders + [order], store.nextOrderId + 1))
  }
}
