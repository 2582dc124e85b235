/** The product catalog as the cart views see it: read-only product records
    with prices in integer cents, and the lookup by slug every view starts with. */
module Catalog {
  import opened Wrappers

  type ProductId = nat

  /** A decimal column with 9 digits, 2 of them after the point, holds strictly
      less than 10^7 in absolute value, that is strictly less than 10^9 cents. */
  const DecimalBound: int := 1_000_000_000

  /** Whether an amount of cents fits a max_digits=9, decimal_places=2 column. */
  predicate FitsDecimal(cents: int)
  {
    -DecimalBound < cents < DecimalBound
  }

  /** A product row; `price` is in cents. Category, description, weight and
      images play no part in the cart rules. */
  datatype Product = Product(id: ProductId, name: string, slug: string, price: int)

  /** What `Product.objects.get(slug=...)` raises. */
  datatype LookupError = ProductDoesNotExist | MultipleProductsReturned

  /** Stored products: primary keys are distinct and every price fits its column.
      Slugs need not be distinct, as the slug field is not declared unique. */
  predicate WellFormed(catalog: seq<Product>)
  {
    && (forall i, j :: 0 <= i < j < |catalog| ==> catalog[i].id != catalog[j].id)
    && (forall p :: p in catalog ==> FitsDecimal(p.price))
  }

  /** The catalog entries carrying `slug`, in catalog order. */
  function WithSlug(catalog: seq<Product>, slug: string): (r: seq<Product>)
    ensures |r| <= |catalog|
    ensures forall p :: p in r <==> p in catalog && p.slug == slug
  {
    if |catalog| == 0 then []
    else if catalog[0].slug == slug then [catalog[0]] + WithSlug(catalog[1..], slug)
    else WithSlug(catalog[1..], slug)
  }

  /** The single product with the given slug, failing when there is none or more than one. */
  function FindBySlug(catalog: seq<Product>, slug: string): (r: Result<Product, LookupError>)
    ensures r == Err(ProductDoesNotExist) <==> forall p :: p in catalog ==> p.slug != slug
    ensures r.Ok? ==> r.value in catalog && r.value.slug == slug
    ensures r.Ok? ==> forall p :: p in catalog && p.slug == slug ==> p == r.value
  {
    var found := WithSlug(catalog, slug);
    assert |found| > 0 ==> found[0] in found;
    if |found| == 0 then Err(ProductDoesNotExist)
    else if |found| > 1 then Err(MultipleProductsReturned)
    else Ok(found[0])
  }

  /** A slug no entry carries selects nothing. */
  lemma {:induction false} WithSlugAbsent(catalog: seq<Product>, slug: string)
    requires forall q :: q in catalog ==> q.slug != slug
    ensures WithSlug(catalog, slug) == []
  {
    if |catalog| > 0 {
      assert catalog[0] in catalog;
      WithSlugAbsent(catalog[1..], slug);
    }
  }

  /** Only entry `i` carries its slug. */
  predicate OnlyEntryWithSlug(catalog: seq<Product>, i: nat)
    requires i < |catalog|
  {
    forall j :: 0 <= j < |catalog| && j != i ==> catalog[j].slug != catalog[i].slug
  }

  /** A slug carried by exactly one entry selects exactly that entry. */
  lemma {:induction false} WithSlugOnlyEntry(catalog: seq<Product>, i: nat)
    requires i < |catalog|
    requires OnlyEntryWithSlug(catalog, i)
    ensures WithSlug(catalog, catalog[i].slug) == [catalog[i]]
  {
    var slug := catalog[i].slug;
    if i == 0 {
      forall q | q in catalog[1..] ensures q.slug != slug {
        var k :| 0 <= k < |catalog[1..]| && catalog[1..][k] == q;
        assert catalog[k + 1] == q;
      }
      WithSlugAbsent(catalog[1..], slug);
    } else {
      assert catalog[1..][i - 1] == catalog[i];
      assert OnlyEntryWithSlug(catalog[1..], i - 1) by {
        forall j | 0 <= j < |catalog[1..]| && j != i - 1
          ensures catalog[1..][j].slug != catalog[1..][i - 1].slug
        {
          assert catalog[1..][j] == catalog[j + 1];
        }
      }
      WithSlugOnlyEntry(catalog[1..], i - 1);
    }
  }

  /** Two entries carrying the same slug are both selected, so at least two results come back. */
  lemma {:induction false} WithSlugTwoEntries(catalog: seq<Product>, i: nat, j: nat)
    requires i < j < |catalog|
    requires catalog[i].slug == catalog[j].slug
    ensures |WithSlug(catalog, catalog[i].slug)| >= 2
  {
    var slug := catalog[i].slug;
    assert catalog[1..][j - 1] == catalog[j];
    if i == 0 {
      assert catalog[j] in catalog[1..];
      assert catalog[j] in WithSlug(catalog[1..], slug);
    } else {
      assert catalog[1..][i - 1] == catalog[i];
      WithSlugTwoEntries(catalog[1..], i - 1, j - 1);
    }
  }

  /** A product whose slug no other entry carries is found by that slug. */
  lemma FindBySlugFindsUnique(catalog: seq<Product>, i: nat)
    requires i < |catalog|
    requires OnlyEntryWithSlug(catalog, i)
    ensures FindBySlug(catalog, catalog[i].slug) == Ok(catalog[i])
  {
    WithSlugOnlyEntry(catalog, i);
  }

  /** Two entries sharing a slug make the lookup raise MultipleProductsReturned. */
  lemma FindBySlugRejectsDuplicates(catalog: seq<Product>, i: nat, j: nat)
    requires i < j < |catalog|
    requires catalog[i].slug == catalog[j].slug
    ensures FindBySlug(catalog, catalog[i].slug) == Err(MultipleProductsReturned)
  {
    WithSlugTwoEntries(catalog, i, j);
  }

  /** The lookup raises MultipleProductsReturned only when two entries share the slug. */
  lemma FindBySlugMultipleMeansDuplicate(catalog: seq<Product>, slug: string)
    requires FindBySlug(catalog, slug) == Err(MultipleProductsReturned)
    ensures exists i, j :: 0 <= i < j < |catalog| && catalog[i].slug == slug && catalog[j].slug == slug
  {
    var found := WithSlug(catalog, slug);
    assert found[0] in catalog;
    var i :| 0 <= i < |catalog| && catalog[i] == found[0];
    if !exists j :: 0 <= j < |catalog| && j != i && catalog[j].slug == slug {
      FindBySlugFindsUnique(catalog, i);
      assert false;
    }
    var j :| 0 <= j < |catalog| && j != i && catalog[j].slug == slug;
    if i < j {
      assert catalog[i].slug == slug && catalog[j].slug == slug;
    } else {
      assert catalog[j].slug == slug && catalog[i].slug == slug;
    }
  }
}
