/** A worked scenario: two products, a cart filled and emptied again, then checkout. */
module Scenario {
  import opened Wrappers
  import opened Catalog
  import opened Carts
  import opened CartViews
  import opened CartProperties
  import opened Orders
  import opened Checkout

  const Cake: Product := Product(1, "Cake", "cake", 500)
  const Tart: Product := Product(2, "Tart", "tart", 300)
  const Shop: seq<Product> := [Cake, Tart]

  /** Two cakes at 5.00 and one tart at 3.00 cost 13.00 for 3 items; without
      the cakes, 3.00 for 1 item; checkout then closes the cart with one order. */
  lemma TwoProductScenario(today: Day)
    ensures var c1 := AddToCart(Shop, NewCart(10, 7), "cake");
            c1.Ok? &&
            var c2 := ChangeQty(Shop, c1.value, "cake", 2);
            c2.Ok? &&
            var c3 := AddToCart(Shop, c2.value, "tart");
            && c3.Ok?
            && TotalQty(c3.value) == 3 && TotalPrice(c3.value) == 1300
            && var c4 := DeleteFromCart(Shop, c3.value, "cake");
            && c4.Ok?
            && TotalQty(c4.value) == 1 && TotalPrice(c4.value) == 300
            && ProductsInCart(c4.value) == [Tart]
            && var r := MakeOrder(Store(c4.value, [], 1), Some(7), true, OrderForm("A", "B", "1", None, None, today + 3), today);
            && r.reply.Ok? && r.store.cart.inOrder
            && OrdersOf(r.store.orders, 7) == [r.reply.value]
            && r.reply.value.cart == Some(10)
  {
    FindBySlugFindsUnique(Shop, 0);
    FindBySlugFindsUnique(Shop, 1);
    var c0 := NewCart(10, 7);
    var c1 := AddToCart(Shop, c0, "cake").value;
    AddToCartTotals(Shop, c0, "cake");
    var c2 := ChangeQty(Shop, c1, "cake", 2).value;
    ChangeQtyTotals(Shop, c1, "cake", 2);
    var c3 := AddToCart(Shop, c2, "tart").value;
    AddToCartTotals(Shop, c2, "tart");
    var c4 := DeleteFromCart(Shop, c3, "cake").value;
    DeleteFromCartTotals(Shop, c3, "cake");
    assert c4.members == [2];
  }
}
