/** Orders: the four declared statuses with their stored codes, and the order record. */
module Orders {
  import opened Wrappers
  import opened Carts

  type OrderId = nat

  /** A day number; date arithmetic is plain integer arithmetic on it. */
  type Day = int

  /** The declared order statuses. */
  datatype Status = New | InProgress | IsReady | Completed

  /** The status a freshly created order gets. */
  const DefaultStatus: Status := New

  /** The stored codes, in declaration order. */
  const StatusCodes: seq<string> := ["new", "in_progress", "is_ready", "completed"]

  /** The code stored in the status column. */
  function Code(s: Status): (r: string)
    ensures r in StatusCodes
  {
    match s
    case New => "new"
    case InProgress => "in_progress"
    case IsReady => "is_ready"
    case Completed => "completed"
  }

  /** Reading a status column back; only the declared codes are statuses. */
  function ParseStatus(code: string): (r: Option<Status>)
    ensures r.Some? <==> code in StatusCodes
    ensures r.Some? ==> Code(r.value) == code
  {
    if code == "new" then Some(New)
    else if code == "in_progress" then Some(InProgress)
    else if code == "is_ready" then Some(IsReady)
    else if code == "completed" then Some(Completed)
    else None
  }

  /** Every status survives being stored and read back. */
  lemma StatusRoundTrip(s: Status)
    ensures ParseStatus(Code(s)) == Some(s)
  {
  }

  /** Distinct statuses are stored under distinct codes, so the codes name them. */
  lemma CodeInjective(s: Status, t: Status)
    ensures Code(s) == Code(t) <==> s == t
  {
  }

  /** An order row. `cart` is a nullable reference, filled in when the order is placed. */
  datatype Order = Order(
    id: OrderId,
    customer: CustomerId,
    firstName: string,
    lastName: string,
    phone: string,
    status: Status,
    cart: Option<CartId>,
    address: Option<string>,
    comment: Option<string>,
    orderDate: Day)

  /** The orders of one customer (the reverse of the order's customer reference),
      listed by the model in creation order. */
  function OrdersOf(orders: seq<Order>, customer: CustomerId): (r: seq<Order>)
    ensures forall o :: o in r <==> o in orders && o.customer == customer
    ensures |r| <= |orders|
  {
    if |orders| == 0 then []
    else if orders[0].customer == customer then [orders[0]] + OrdersOf(orders[1..], customer)
    else OrdersOf(orders[1..], customer)
  }

  /** The orders placed against one cart, listed by the model in creation order. */
  function OrdersForCart(orders: seq<Order>, cart: CartId): (r: seq<Order>)
    ensures forall o :: o in r <==> o in orders && o.cart == Some(cart)
    ensures |r| <= |orders|
  {
    if |orders| == 0 then []
    else if orders[0].cart == Some(cart) then [orders[0]] + OrdersForCart(orders[1..], cart)
    else OrdersForCart(orders[1..], cart)
  }

  /** Appending an order appends it to its customer's orders and no one else's. */
  lemma {:induction false} OrdersOfAppend(orders: seq<Order>, o: Order, customer: CustomerId)
    ensures OrdersOf(orders + [o], customer)
         == OrdersOf(orders, customer) + (if o.customer == customer then [o] else [])
  {
    if |orders| > 0 {
      assert (orders + [o])[1..] == orders[1..] + [o];
      OrdersOfAppend(orders[1..], o, customer);
    }
  }

  /** Appending an order appends it to the orders of its cart and of no other cart. */
  lemma {:induction false} OrdersForCartAppend(orders: seq<Order>, o: Order, cart: CartId)
    ensures OrdersForCart(orders + [o], cart)
         == OrdersForCart(orders, cart) + (if o.cart == Some(cart) then [o] else [])
  {
    if |orders| > 0 {
      assert (orders + [o])[1..] == orders[1..] + [o];
      OrdersForCartAppend(orders[1..], o, cart);
    }
  }
}
