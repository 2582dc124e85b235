# Sweetshop cart and checkout, modelled in Dafny

This project models the cart and checkout rules of the Sweetshop storefront
(a Django application) as a small functional state machine over one cart:

- the **catalog** is a read-only sequence of products; every cart view first
  looks its product up by slug, which fails when no product or more than one
  product carries the slug (the slug field is not unique);
- a **cart line** (`CartProduct`) holds a product, a quantity and a line total;
  every save recomputes the total as quantity times price, in integer cents;
- a **cart** holds its line rows keyed by product id (the owner is fixed within
  one cart, so the product id alone identifies the row of the
  (owner, cart, product) lookup) and, separately, the cart's many-to-many
  collection of lines, which `products_in_cart` reads (the model lists it in
  attachment order);
- the three **cart views** (add, delete, change quantity) are pure functions
  returning the new cart or the error the view would raise;
- **checkout** is one function returning either the unchanged store or the
  store with the new order, the cart marked ordered and the order among the
  customer's orders, mirroring the atomic transaction around the view.

Prices are integers in cents, dates are integer day numbers, and `today` is a
parameter. Files: `wrappers.dfy` (Option, Result), `sequences.dfy` (distinct
sequences, attach/remove), `catalog.dfy`, `cart_lines.dfy`, `carts.dfy`,
`cart_views.dfy`, `cart_properties.dfy`, `orders.dfy`, `checkout.dfy`,
`checkout_properties.dfy`, `scenario.dfy`.

Storage rules the model takes from the column types: a line quantity below 0 is
refused by the positive-integer column, and a line total of 10^9 cents or more
in absolute value does not fit the `max_digits=9, decimal_places=2` column.
Both make the save fail and nothing is written (`CartLines.Save`). How a
database reports the overflow depends on the backend, and so does which refusal
is reported when both apply; the model treats both as a refused write and
reports the negative quantity first.

The model follows the code: changing a quantity to 0 is accepted (only negative values
are refused, and only by the column); checkout does not check that the cart
has lines or that it was not already ordered, so a second checkout of the same
cart creates a second order (`CheckoutProperties.MakeOrderTwiceOnOneCart`);
and the cart views do not refuse a cart that is already ordered.

## Model

| member | source | states |
|---|---|---|
| Catalog.WithSlug | SweetshopApp/views.py:181 | the products a slug query selects are exactly the catalog products with that slug |
| Catalog.FindBySlug | SweetshopApp/views.py:180-181 | the lookup fails with "does not exist" exactly when no product has the slug; a success is a catalog product with that slug and the only one |
| Catalog.WithSlugOnlyEntry | SweetshopApp/views.py:181 | a slug carried by exactly one entry selects exactly that entry, once |
| Catalog.WithSlugTwoEntries | SweetshopApp/views.py:181 | two entries carrying the same slug are both selected: at least two results |
| Catalog.FindBySlugFindsUnique | SweetshopApp/views.py:181 | a product whose slug no other entry carries is found by that slug, whatever other slugs repeat |
| Catalog.FindBySlugRejectsDuplicates | SweetshopApp/models.py:28 | the slug is not unique, so two entries sharing a slug make the lookup raise "multiple objects returned" |
| Catalog.FindBySlugMultipleMeansDuplicate | SweetshopApp/views.py:181 | "multiple objects returned" is raised only when two entries share the slug |
| CartLines.Save | SweetshopApp/models.py:71-73 | a save succeeds exactly when the quantity is not negative and quantity times price fits the 9-digit column; the saved line then satisfies final_price = qty * product.price |
| CartLines.Create | SweetshopApp/models.py:64-73 | a new line has quantity 1 and, by the save rule, a total equal to the product price |
| CartLines.SaveFixesSoundLines | SweetshopApp/models.py:71-73 | saving a line unchanged gives it back exactly when it already obeys the price rule and fits its columns |
| Carts.NewCart | SweetshopApp/models.py:87-90 | a new cart is not ordered, not anonymous, has item count 0, no total and no lines, and satisfies the cart invariant |
| Carts.NewCartIsEmpty | SweetshopApp/models.py:95-96 | a new cart lists no products; the model's own line sums of it are 0 |
| Carts.ProductsInCart | SweetshopApp/models.py:95-96 | one product per attached line, in the collection's order |
| Carts.ProductsInCartMatchesRows | SweetshopApp/models.py:95-96 | on a valid cart the listed products are exactly the products of its rows, one entry per row, each at its line's position |
| CartViews.AddToCart | SweetshopApp/views.py:179-187 | a failed lookup is raised; an existing line leaves its rows and collection as they were and attaches nothing; otherwise one line with quantity 1 and total = price is created and attached; the cart invariant is kept |
| CartViews.DeleteFromCart | SweetshopApp/views.py:193-201 | a failed lookup or a missing line is raised; otherwise exactly that line's row is deleted and detached, every other row stays the same, and the invariant is kept |
| CartViews.ChangeQty | SweetshopApp/views.py:207-216 | a failed lookup or a missing line is raised; a negative quantity or an overflowing total is refused by storage; otherwise that line gets the quantity and total = qty * price, with no lower-bound check, and nothing else changes |
| CartProperties.AddToCartIdempotent | SweetshopApp/views.py:182-186 | adding the same product a second time returns the cart of the first add unchanged |
| CartProperties.AddToCartCreatesOneLine | SweetshopApp/views.py:182-186 | adding a product the cart lacks adds exactly its key, a line with quantity 1 and total = price, appended to the collection and to the products listed |
| CartProperties.AddToCartSucceedsOnFoundProduct | SweetshopApp/views.py:181-186 | with stored product prices, an add whose product lookup succeeds never fails |
| CartProperties.DeleteUndoesAdd | SweetshopApp/views.py:182-200 | deleting a product just added to a cart that lacked it gives back the original lines, collection and header |
| CartProperties.DeleteTwiceFails | SweetshopApp/views.py:196-200 | after a delete, deleting the same product again raises "line does not exist" |
| CartProperties.DeleteKeepsOrder | SweetshopApp/views.py:199 | deleting the line attached at position i cuts exactly that position out of the collection, keeping the others in order |
| CartProperties.ChangeQtyIdempotent | SweetshopApp/views.py:210-215 | setting the same quantity twice gives the same cart as once |
| CartProperties.ChangeQtyOneAfterAdd | SweetshopApp/views.py:213-215 | setting quantity 1 on a just-created line leaves the cart as the add left it |
| CartProperties.ChangeQtyZeroKeepsLine | SweetshopApp/views.py:213-215 | quantity 0 is accepted and keeps the line with total 0 |
| Orders.Code | SweetshopApp/models.py:105-116 | every status is stored as one of the four declared codes |
| Orders.ParseStatus | SweetshopApp/models.py:105-123 | a stored code reads back as a status exactly when it is one of the four declared codes, and then as the status stored under it |
| Orders.StatusRoundTrip | SweetshopApp/models.py:111-123 | every status read back after being stored is the same status |
| Orders.CodeInjective | SweetshopApp/models.py:105-108 | two statuses share a code only when they are the same status |
| Orders.OrdersOf | SweetshopApp/models.py:119 | a customer's orders are exactly the orders referencing that customer |
| Orders.OrdersForCart | SweetshopApp/models.py:124 | a cart's orders are exactly the orders referencing that cart |
| Orders.OrdersOfAppend | SweetshopApp/models.py:119 | a new order joins the orders of its own customer, at the end, and of no other customer |
| Orders.OrdersForCartAppend | SweetshopApp/models.py:124 | a new order joins the orders of its own cart, at the end, and of no other cart |
| Checkout.PlacedOrder | SweetshopApp/views.py:245-258 | the created order takes the next key, the customer, the request's cart, the form's fields and date, and the default status "new" |
| Checkout.MakeOrder | SweetshopApp/views.py:232-262 | an order is placed exactly when a customer exists, the form is valid and the date is at least today + 3; every failure leaves the store unchanged; a success appends the order and marks the cart ordered, together |
| CheckoutProperties.LeadTimeBoundary | SweetshopApp/views.py:238-244 | a date today + 2 is refused with no change; today + 3 is accepted |
| CheckoutProperties.MakeOrderAddsOneOrderForCart | SweetshopApp/views.py:245-258 | a successful checkout adds exactly one order for this cart and none for any other cart |
| CheckoutProperties.MakeOrderJoinsCustomerOrders | SweetshopApp/views.py:246-259 | the new order is added to the requesting customer's orders and to no other customer's |
| CheckoutProperties.MakeOrderKeepsInvariants | SweetshopApp/views.py:253-258 | the new order's key is fresh, order keys stay below the next key, and the cart's lines are untouched |
| CheckoutProperties.MakeOrderTwiceOnOneCart | SweetshopApp/views.py:237-259 | nothing stops a second checkout of an ordered cart: it succeeds and leaves two orders for that cart |
| Scenario.TwoProductScenario | SweetshopApp/views.py:177-262 | two cakes at 5.00 and a tart at 3.00 give 13.00 for 3 items; deleting the cakes leaves 3.00 for 1 item and lists only the tart; checkout then places one order for the cart and customer |

## Derived totals

The views call a cart recalculation routine after each mutation; that routine
is not part of this model. The model defines its own totals over the attached
lines (`Carts.TotalQty`, `Carts.TotalPrice`) and proves how each view moves
them: adding a new product adds one item and its price
(`CartProperties.AddToCartTotals`), deleting a line subtracts its quantity and
total (`CartProperties.DeleteFromCartTotals`), and changing a quantity shifts
the totals by that line's change alone (`CartProperties.ChangeQtyTotals`).
These are statements about the model's definitions, not about the routine.

## Left out

- The cart recalculation routine (`recalc_cart`) is not part of this model: the values of a cart's cached `totalProducts` and `finalPrice` after a view are not modelled, and no view's contract says anything about them. The lemmas that equate whole carts (`AddToCartIdempotent`, `ChangeQtyIdempotent`, `ChangeQtyOneAfterAdd`) compare two carts whose last step recalculates the same lines.
- The order of the cart's line collection and of a customer's or cart's orders is fixed by the model as attachment and creation order; the source queries them with no ordering and declares none, so their order there is unspecified.
- Cart resolution (`CartMixin`) is not part of this model: each view takes the request's cart as a parameter.
- Order-form validation (`OrderForm`) is not part of this model: its verdict is the boolean `formValid`, and its cleaned fields are the `OrderForm` record.
- Customer lookup for checkout is a parameter: `None` stands for a requesting user without a customer record.
- Parsing the posted quantity with `int(...)` is left out: the quantity arrives as an integer.
- CartViews.ChangeQty: the upper range of the quantity column is not modelled, because it depends on the database backend; only the lower bound and the line-total width are.
- CartLines.Save: for the same reason its "exactly when" covers only the lower bound of the quantity and the line-total width; a quantity beyond the backend's integer range (a 0-cent product with quantity 2^31, say) is accepted by the model though some databases refuse it.
- Login, registration and email verification are left out: they rest on the framework's authentication, token generator, base64 decoding and mail sending.
- Rendering views, redirects and user messages are left out: they only query and render.
- Routing and admin registration are left out: they hold no logic.
- Product weight (a floating-point field), images, descriptions and categories are left out: no cart rule reads them.
- The order's `created_at` timestamp is left out: it is set by storage on save.
- The customer's separate `customer_orders` many-to-many field is left out: the views never write it; the customer's orders are the orders referencing the customer.
- Concurrency and row locking are left out: the atomic checkout is modelled only as one function that returns either the old store or the whole new one.
- Product prices do not change while a cart is used: the catalog is read-only here.
