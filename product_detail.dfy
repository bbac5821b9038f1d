/** The product page: lookup by the route id, the not-found view and the related products. */
module ProductDetail {
  import opened Options
  import opened Sequences
  import opened Products

  /** What the page renders. */
  datatype DetailView = NotFound | Found(product: Product, related: seq<Product>)

  /** Same category, not the product itself: the filter before the slice. */
  function SameCategoryOthers(catalog: seq<Product>, product: Product): (r: seq<Product>)
    ensures IsSubsequence(r, catalog)
    ensures forall k :: 0 <= k < |r| ==> r[k].category == product.category && r[k].id != product.id
    ensures forall k :: 0 <= k < |catalog| && catalog[k].category == product.category && catalog[k].id != product.id
              ==> catalog[k] in r
  {
    if |catalog| == 0 then []
    else
      var rest := SameCategoryOthers(catalog[1..], product);
      assert forall k :: 1 <= k < |catalog| ==> catalog[k] == catalog[1..][k - 1];
      if catalog[0].category == product.category && catalog[0].id != product.id
      then [catalog[0]] + rest
      else rest
  }

  /** The filter keeps each qualifying product as often as the catalog holds it, and no other. */
  lemma {:induction false} SameCategoryCounts(catalog: seq<Product>, product: Product, p: Product)
    ensures multiset(SameCategoryOthers(catalog, product))[p]
            == if p.category == product.category && p.id != product.id then multiset(catalog)[p] else 0
  {
    if |catalog| > 0 {
      var c, tail := catalog[0], catalog[1..];
      var rest := SameCategoryOthers(tail, product);
      SameCategoryCounts(tail, product, p);
      assert catalog == [c] + tail;
      assert multiset(catalog)[p] == multiset(tail)[p] + (if c == p then 1 else 0);
      if c.category == product.category && c.id != product.id {
        assert SameCategoryOthers(catalog, product) == [c] + rest;
        assert multiset([c] + rest)[p] == multiset(rest)[p] + (if c == p then 1 else 0);
      } else {
        assert SameCategoryOthers(catalog, product) == rest;
      }
    }
  }

  /** `relatedProducts`: the first four of them. */
  function RelatedProducts(catalog: seq<Product>, product: Product): seq<Product>
  {
    Take(SameCategoryOthers(catalog, product), 4)
  }

  /**
   * Related products share the category, are not the product, number at most
   * four, and are the first such products in catalog order; when there are at
   * most four, all of them are shown.
   */
  lemma RelatedSpec(catalog: seq<Product>, product: Product)
    ensures var r := RelatedProducts(catalog, product);
      && |r| <= 4
      && (forall k :: 0 <= k < |r| ==> r[k].category == product.category && r[k].id != product.id)
      && IsSubsequence(r, catalog)
      && r == SameCategoryOthers(catalog, product)[..|r|]
      && (|SameCategoryOthers(catalog, product)| <= 4 ==> r == SameCategoryOthers(catalog, product))
  {
    var all := SameCategoryOthers(catalog, product);
    var r := RelatedProducts(catalog, product);
    PrefixIsSubsequence(all, |r|);
    SubsequenceTransitive(r, all, catalog);
  }

  /** The page for a route id: the first catalog product with that id, or the not-found view. */
  function DetailPage(catalog: seq<Product>, routeId: Option<string>): (v: DetailView)
    ensures v.Found? <==> routeId.Some? && exists i :: 0 <= i < |catalog| && catalog[i].id == routeId.value
    ensures v.Found? ==> v.product in catalog && v.product.id == routeId.value
    ensures v.Found? ==> v.related == RelatedProducts(catalog, v.product)
  {
    if routeId.None? then NotFound
    else
      match FindById(catalog, routeId.value)
      case None => NotFound
      case Some(p) => Found(p, RelatedProducts(catalog, p))
  }

  /** `handleAddToCart`: the product handed to the cart is the one shown. */
  function AddToCartArgument(view: DetailView): Product
    requires view.Found?
  {
    view.product
  }

  /** On a found page, the cart receives the catalog product whose id is the route id. */
  lemma AddToCartPassesProduct(catalog: seq<Product>, id: string)
    requires DetailPage(catalog, Some(id)).Found?
    ensures AddToCartArgument(DetailPage(catalog, Some(id))) == FindById(catalog, id).value
    ensures AddToCartArgument(DetailPage(catalog, Some(id))) in catalog
    ensures AddToCartArgument(DetailPage(catalog, Some(id))).id == id
  {
  }

  /** When exactly one catalog entry shares the category and is not the product, it is the only related one. */
  lemma {:induction false} SingleSameCategory(catalog: seq<Product>, product: Product, j: nat)
    requires j < |catalog|
    requires catalog[j].category == product.category && catalog[j].id != product.id
    requires forall k :: 0 <= k < |catalog| && k != j ==>
               !(catalog[k].category == product.category && catalog[k].id != product.id)
    ensures SameCategoryOthers(catalog, product) == [catalog[j]]
  {
    var rest := SameCategoryOthers(catalog[1..], product);
    if j == 0 {
      if |rest| > 0 {
        SubsequenceMembers(rest, catalog[1..]);
        assert false;
      }
    } else {
      SingleSameCategory(catalog[1..], product, j - 1);
    }
  }

  /**
   * In eight products with distinct ids where products i and i+4 share a
   * category and the first four differ, each product's only related product is
   * its counterpart four places away.
   */
  lemma PairedRelated(list: seq<Product>, i: nat)
    requires |list| == 8 && DistinctIds(list) && i < 8
    requires forall a :: 0 <= a < 4 ==> list[a].category == list[a + 4].category
    requires forall a, b :: 0 <= a < b < 4 ==> list[a].category != list[b].category
    ensures SameCategoryOthers(list, list[i]) == [list[(i + 4) % 8]]
  {
    var p := list[i];
    var j := (i + 4) % 8;
    forall k | 0 <= k < 8 && k != j
      ensures !(list[k].category == p.category && list[k].id != p.id)
    {
      if k != i {
        var a := if k < 4 then k else k - 4;
        var b := if i < 4 then i else i - 4;
        assert list[k].category == list[a].category;
        assert p.category == list[b].category;
        if a < b { assert list[a].category != list[b].category; }
        else { assert list[b].category != list[a].category; }
      }
    }
    SingleSameCategory(list, p, j);
  }

  /** In the catalog, each product's only related product is its counterpart four places away. */
  lemma CatalogRelated(i: nat)
    requires i < |Catalog|
    ensures SameCategoryOthers(Catalog, Catalog[i]) == [Catalog[(i + 4) % 8]]
  {
    CatalogIds();
    CatalogCategories();
    PairedRelated(Catalog, i);
  }

  /** In a catalog with distinct ids, a product with one related product gets a page showing both. */
  lemma PageWithOneRelated(catalog: seq<Product>, i: nat, other: Product)
    requires i < |catalog| && DistinctIds(catalog)
    requires SameCategoryOthers(catalog, catalog[i]) == [other]
    ensures DetailPage(catalog, Some(catalog[i].id)) == Found(catalog[i], [other])
  {
    FindDistinct(catalog, i);
  }

  /** For each catalog product, the page shows it with exactly the other product of its category. */
  lemma CatalogPages(i: nat)
    requires i < |Catalog|
    ensures DetailPage(Catalog, Some(Catalog[i].id)) == Found(Catalog[i], [Catalog[(i + 4) % 8]])
  {
    CatalogIds();
    CatalogRelated(i);
    PageWithOneRelated(Catalog, i, Catalog[(i + 4) % 8]);
  }
}
