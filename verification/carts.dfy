/** The cart aggregate: the cart's line rows, keyed by product, and the cart's
    own collection of lines. The model lists that collection in attachment order;
    the storage query behind it names no order. */
module Carts {
  import opened Wrappers
  import opened Sequences
  import opened Catalog
  import opened CartLines

  type CartId = nat
  type CustomerId = nat

  /** `lines` are the line rows of this cart and its owner, keyed by product id
      (the owner is fixed, so the product id alone identifies a row).
      `members` is the cart's many-to-many collection of lines, listed by the model
      in the order they were attached. `totalProducts` and `finalPrice` are cached totals kept by a
      recalculation routine outside this model; `finalPrice` is a nullable column. */
  datatype Cart = Cart(
    id: CartId,
    owner: CustomerId,
    lines: map<ProductId, Line>,
    members: seq<ProductId>,
    totalProducts: int,
    finalPrice: Option<int>,
    inOrder: bool,
    forAnonymousUser: bool)

  /** Every attached line has a row. */
  predicate MembersHaveRows(c: Cart)
  {
    forall k :: k in c.members ==> k in c.lines
  }

  /** The cart invariant the line operations keep: each row is keyed by its own
      product and sound, and the collection holds each row exactly once. */
  predicate Valid(c: Cart)
  {
    && (forall k :: k in c.lines ==> c.lines[k].product.id == k && Sound(c.lines[k]))
    && Distinct(c.members)
    && MembersHaveRows(c)
    && (forall k :: k in c.lines ==> k in c.members)
  }

  /** A cart as first created: no lines, not ordered, not anonymous, count 0, no total. */
  function NewCart(id: CartId, owner: CustomerId): (c: Cart)
    ensures Valid(c) && c.id == id && c.owner == owner
    ensures c.lines == map[] && c.members == []
    ensures !c.inOrder && !c.forAnonymousUser && c.totalProducts == 0 && c.finalPrice == None
  {
    Cart(id, owner, map[], [], 0, None, false, false)
  }

  /** The products of the cart's lines, one per attached line, in collection order. */
  function ProductsInCart(c: Cart): (r: seq<Product>)
    requires MembersHaveRows(c)
    ensures |r| == |c.members|
    ensures forall i :: 0 <= i < |r| ==> r[i] == c.lines[c.members[i]].product
  {
    seq(|c.members|, i requires 0 <= i < |c.members| => c.lines[c.members[i]].product)
  }

  /** On a valid cart the products listed are exactly the products of its rows,
      one entry per row, each in the position of its line. */
  lemma ProductsInCartMatchesRows(c: Cart)
    requires Valid(c)
    ensures |ProductsInCart(c)| == |c.lines|
    ensures forall i :: 0 <= i < |c.members| ==> ProductsInCart(c)[i].id == c.members[i]
    ensures forall k :: k in c.lines ==> c.lines[k].product in ProductsInCart(c)
    ensures forall p :: p in ProductsInCart(c) ==> p.id in c.lines && c.lines[p.id].product == p
  {
    var r := ProductsInCart(c);
    DistinctCardinality(c.members);
    assert c.lines.Keys == Elements(c.members);
    forall k | k in c.lines ensures c.lines[k].product in r {
      var i :| 0 <= i < |c.members| && c.members[i] == k;
      assert r[i] == c.lines[k].product;
    }
  }

  /** A new cart lists no products. */
  lemma NewCartIsEmpty(id: CartId, owner: CustomerId)
    ensures ProductsInCart(NewCart(id, owner)) == []
    ensures TotalQty(NewCart(id, owner)) == 0 && TotalPrice(NewCart(id, owner)) == 0
  {
  }

  // ---------------------------------------------------------------------------
  // Totals. These are this model's own definitions of what the cached fields
  // are meant to hold; the recalculation routine itself is not modelled.

  /** The sum of `f` over the rows of `keys`, in order. */
  function SumOver(keys: seq<ProductId>, lines: map<ProductId, Line>, f: Line -> int): int
    requires forall k :: k in keys ==> k in lines
  {
    if |keys| == 0 then 0 else f(lines[keys[0]]) + SumOver(keys[1..], lines, f)
  }

  /** The number of items in the cart: the sum of the attached lines' quantities. */
  function TotalQty(c: Cart): int
    requires MembersHaveRows(c)
  {
    SumOver(c.members, c.lines, (l: Line) => l.qty)
  }

  /** The cart's price in cents: the sum of the attached lines' totals. */
  function TotalPrice(c: Cart): int
    requires MembersHaveRows(c)
  {
    SumOver(c.members, c.lines, (l: Line) => l.finalPrice)
  }

  /** The sum only looks at the rows of its keys. */
  lemma {:induction false} SumOverFrame(keys: seq<ProductId>, a: map<ProductId, Line>, b: map<ProductId, Line>, f: Line -> int)
    requires forall k :: k in keys ==> k in a && k in b && a[k] == b[k]
    ensures SumOver(keys, a, f) == SumOver(keys, b, f)
  {
    if |keys| > 0 {
      SumOverFrame(keys[1..], a, b, f);
    }
  }

  /** Appending a key adds its row's value. */
  lemma {:induction false} SumOverAppend(keys: seq<ProductId>, k: ProductId, lines: map<ProductId, Line>, f: Line -> int)
    requires forall x :: x in keys ==> x in lines
    requires k in lines
    ensures SumOver(keys + [k], lines, f) == SumOver(keys, lines, f) + f(lines[k])
  {
    if |keys| > 0 {
      assert (keys + [k])[1..] == keys[1..] + [k];
      SumOverAppend(keys[1..], k, lines, f);
    }
  }

  /** Replacing the row of a key that occurs once changes the sum by the difference. */
  lemma {:induction false} SumOverUpdate(keys: seq<ProductId>, lines: map<ProductId, Line>, k: ProductId, l: Line, f: Line -> int)
    requires forall x :: x in keys ==> x in lines
    requires Distinct(keys) && k in keys
    ensures SumOver(keys, lines[k := l], f) == SumOver(keys, lines, f) - f(lines[k]) + f(l)
  {
    if keys[0] == k {
      assert k !in keys[1..];
      SumOverFrame(keys[1..], lines[k := l], lines, f);
    } else {
      SumOverUpdate(keys[1..], lines, k, l, f);
    }
  }

  /** Removing a key that occurs once, and its row, subtracts its row's value. */
  lemma {:induction false} SumOverWithout(keys: seq<ProductId>, lines: map<ProductId, Line>, k: ProductId, f: Line -> int)
    requires forall x :: x in keys ==> x in lines
    requires Distinct(keys) && k in keys
    ensures SumOver(Without(keys, k), lines - {k}, f) == SumOver(keys, lines, f) - f(lines[k])
  {
    if keys[0] == k {
      assert k !in keys[1..];
      WithoutAbsent(keys[1..], k);
      SumOverFrame(keys[1..], lines - {k}, lines, f);
    } else {
      SumOverWithout(keys[1..], lines, k, f);
    }
  }
}
