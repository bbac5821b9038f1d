/**
 * The shop page: its filter state, the filter predicate over the catalog and
 * the sort that orders the filtered products.
 */
module Shop {
  import opened Options
  import opened Sequences
  import opened Text
  import opened Products
  import opened ProductFilters

  /** The page's state cells. */
  datatype ShopState = ShopState(filters: Filters, sortBy: string, searchQuery: string)

  /** The state the page mounts with. */
  function InitialShopState(): (s: ShopState)
    ensures s.filters.categories == [] && s.filters.materials == []
    ensures s.filters.priceRange == PriceRange(0, 500000)
    ensures s.sortBy == "newest" && s.searchQuery == ""
  {
    ShopState(DefaultFilters, "newest", "")
  }

  /** The effect on the URL's `search` parameter: a non-empty value becomes the query. */
  function ApplySearchParam(s: ShopState, search: Option<string>): (r: ShopState)
    ensures r.filters == s.filters && r.sortBy == s.sortBy
    ensures r.searchQuery == if search.Some? && search.value != "" then search.value else s.searchQuery
  {
    if search.Some? && search.value != "" then s.(searchQuery := search.value) else s
  }

  /** `handleResetFilters`: clears both selections and the price range, nothing else. */
  function ResetFilters(s: ShopState): (r: ShopState)
    ensures r.filters.categories == [] && r.filters.materials == []
    ensures r.filters.priceRange == PriceRange(0, 500000)
    ensures r.sortBy == s.sortBy && r.searchQuery == s.searchQuery
  {
    s.(filters := DefaultFilters)
  }

  /** `selected.some(x => hay.includes(x.toLowerCase()))`. */
  predicate SomeIncluded(hay: string, selected: seq<string>)
    decreases |selected|
  {
    |selected| > 0 && (Includes(hay, Lower(selected[0])) || SomeIncluded(hay, selected[1..]))
  }

  /** `some` holds exactly when one selected entry, lower-cased, occurs in `hay`. */
  lemma {:induction false} SomeIncludedIff(hay: string, selected: seq<string>)
    ensures SomeIncluded(hay, selected) <==> exists i :: 0 <= i < |selected| && Includes(hay, Lower(selected[i]))
    decreases |selected|
  {
    if |selected| > 0 {
      SomeIncludedIff(hay, selected[1..]);
      assert forall i :: 1 <= i < |selected| ==> selected[i] == selected[1..][i - 1];
    }
  }

  /** The category test: no selection, or a selected name inside the lower-cased category. */
  predicate CategoryTest(categories: seq<string>, p: Product)
  {
    |categories| == 0 || SomeIncluded(Lower(CategoryName(p.category)), categories)
  }

  /**
   * The material test on an optional material: `material?.toLowerCase()`
   * is `undefined`, hence falsy, when the material is absent.
   */
  predicate MaterialTest(materials: seq<string>, material: Option<string>)
  {
    |materials| == 0 || (material.Some? && SomeIncluded(Lower(material.value), materials))
  }

  /** The price test, inclusive at both ends. */
  predicate PriceTest(range: PriceRange, p: Product)
  {
    p.price >= range.min && p.price <= range.max
  }

  /** The search test: empty query, or the lower-cased query inside the name or the description. */
  predicate SearchTest(query: string, p: Product)
  {
    query == "" || Includes(Lower(p.name), Lower(query)) || Includes(Lower(p.description), Lower(query))
  }

  /** The predicate `filteredProducts` applies; a `Product` has no material, so that test sees none. */
  predicate Matches(s: ShopState, p: Product)
  {
    && CategoryTest(s.filters.categories, p)
    && MaterialTest(s.filters.materials, None)
    && PriceTest(s.filters.priceRange, p)
    && SearchTest(s.searchQuery, p)
  }

  /** `filteredProducts`: exactly the matching products, in catalog order. */
  function FilteredProducts(s: ShopState, catalog: seq<Product>): (r: seq<Product>)
    ensures IsSubsequence(r, catalog)
    ensures forall k :: 0 <= k < |r| ==> Matches(s, r[k])
    ensures forall k :: 0 <= k < |catalog| && Matches(s, catalog[k]) ==> catalog[k] in r
  {
    if |catalog| == 0 then []
    else
      var rest := FilteredProducts(s, catalog[1..]);
      assert forall k :: 1 <= k < |catalog| ==> catalog[k] == catalog[1..][k - 1];
      if Matches(s, catalog[0]) then [catalog[0]] + rest else rest
  }

  /** The filter keeps each matching product as often as the catalog holds it, and no other. */
  lemma {:induction false} FilteredCounts(s: ShopState, catalog: seq<Product>, p: Product)
    ensures multiset(FilteredProducts(s, catalog))[p] == if Matches(s, p) then multiset(catalog)[p] else 0
  {
    if |catalog| > 0 {
      var c, tail := catalog[0], catalog[1..];
      var rest := FilteredProducts(s, tail);
      FilteredCounts(s, tail, p);
      assert catalog == [c] + tail;
      assert multiset(catalog)[p] == multiset(tail)[p] + (if c == p then 1 else 0);
      if Matches(s, c) {
        assert FilteredProducts(s, catalog) == [c] + rest;
        assert multiset([c] + rest)[p] == multiset(rest)[p] + (if c == p then 1 else 0);
      } else {
        assert FilteredProducts(s, catalog) == rest;
      }
    }
  }

  /** What the four tests accept, written with explicit occurrence positions. */
  lemma MatchesIff(s: ShopState, p: Product)
    ensures Matches(s, p) <==>
      && (|s.filters.categories| == 0
          || exists i, k :: 0 <= i < |s.filters.categories|
                            && OccursAt(Lower(CategoryName(p.category)), Lower(s.filters.categories[i]), k))
      && |s.filters.materials| == 0
      && s.filters.priceRange.min <= p.price <= s.filters.priceRange.max
      && (s.searchQuery == ""
          || (exists k :: OccursAt(Lower(p.name), Lower(s.searchQuery), k))
          || (exists k :: OccursAt(Lower(p.description), Lower(s.searchQuery), k)))
  {
    var hay := Lower(CategoryName(p.category));
    SomeIncludedIff(hay, s.filters.categories);
    forall i | 0 <= i < |s.filters.categories| {
      IncludesAt(hay, Lower(s.filters.categories[i]));
    }
    IncludesAt(Lower(p.name), Lower(s.searchQuery));
    IncludesAt(Lower(p.description), Lower(s.searchQuery));
  }

  /** Any material selection empties the result, because no product has a material. */
  lemma MaterialSelectionEmpties(s: ShopState, catalog: seq<Product>)
    requires |s.filters.materials| > 0
    ensures FilteredProducts(s, catalog) == []
  {
  }

  /**
   * Selecting "Rings" also admits the earrings: "rings" occurs inside
   * "earrings", and the category test is a substring test.
   */
  lemma RingsSelectsEarrings(p: Product)
    requires p.category == Earrings
    ensures CategoryTest(["Rings"], p)
  {
    assert Lower("Rings") == "rings";
    assert Lower(CategoryName(p.category)) == "earrings";
    assert OccursAt("earrings", "rings", 3) by {
      assert "earrings"[3..8] == "rings";
    }
    IncludesAt("earrings", "rings");
    assert ["Rings"][0] == "Rings";
    assert SomeIncluded("earrings", ["Rings"]);
  }

  /** In every lower-cased category name, an 's' appears only within the last three characters. */
  lemma CategoryNoEarlyS(c: Category)
    ensures var hay := Lower(CategoryName(c)); |hay| >= 3 && 's' !in hay[..|hay| - 3]
  {
    var hay := Lower(CategoryName(c));
    match c {
      case Necklaces =>
        assert hay == "necklaces" && hay[..6] == "neckla";
      case Rings =>
        assert hay == "rings" && hay[..2] == "ri";
      case Earrings =>
        assert hay == "earrings" && hay[..5] == "earri";
      case Bracelets =>
        assert hay == "bracelets" && hay[..6] == "bracel";
    }
  }

  /** Selecting "Sets" admits no product: no category name contains "sets". */
  lemma SetsSelectsNothing(p: Product)
    ensures !CategoryTest(["Sets"], p)
  {
    var hay := Lower(CategoryName(p.category));
    CategoryNoEarlyS(p.category);
    NotIncludedWithoutFirstChar(hay, "sets");
    assert Lower("Sets") == "sets";
    assert ["Sets"][0] == "Sets" && ["Sets"][1..] == [];
  }

  /** When every product matches, the filter returns the catalog itself. */
  lemma {:induction false} FilteredAllMatch(s: ShopState, catalog: seq<Product>)
    requires forall k :: 0 <= k < |catalog| ==> Matches(s, catalog[k])
    ensures FilteredProducts(s, catalog) == catalog
  {
    if |catalog| > 0 {
      FilteredAllMatch(s, catalog[1..]);
    }
  }

  /** After a reset with an empty query, the whole catalog is shown. */
  lemma ResetShowsCatalog(s: ShopState)
    requires s.searchQuery == ""
    ensures FilteredProducts(ResetFilters(s), Catalog) == Catalog
  {
    CatalogPrices();
    FilteredAllMatch(ResetFilters(s), Catalog);
  }

  // ---- Sorting ----

  /** `featured ? 1 : 0`. */
  function Flag(p: Product): int
  {
    if IsFeatured(p) then 1 else 0
  }

  /** The comparator handed to `sort`: negative, zero or positive. */
  function Compare(sortBy: string, a: Product, b: Product): int
  {
    if sortBy == "price-low" then a.price - b.price
    else if sortBy == "price-high" then b.price - a.price
    else if sortBy == "newest" then CompareStrings(b.id, a.id)
    else if sortBy == "best-sellers" then Flag(b) - Flag(a)
    else 0
  }

  /** Places `x` before the first element it does not come after. */
  function Insert(sortBy: string, x: Product, s: seq<Product>): seq<Product>
  {
    if |s| == 0 then [x]
    else if Compare(sortBy, x, s[0]) <= 0 then [x] + s
    else [s[0]] + Insert(sortBy, x, s[1..])
  }

  /** A stable sort with the comparator, as `Array.prototype.sort` is. */
  function SortProducts(sortBy: string, s: seq<Product>): seq<Product>
  {
    if |s| == 0 then [] else Insert(sortBy, s[0], SortProducts(sortBy, s[1..]))
  }

  /** `sortedProducts`: the filtered catalog, ordered by the selected key. */
  function SortedProducts(s: ShopState, catalog: seq<Product>): seq<Product>
  {
    SortProducts(s.sortBy, FilteredProducts(s, catalog))
  }

  /** Neighbours are in comparator order. */
  ghost predicate Sorted(sortBy: string, s: seq<Product>)
  {
    forall i :: 0 <= i < |s| - 1 ==> Compare(sortBy, s[i], s[i + 1]) <= 0
  }

  /** Every comparator is antisymmetric. */
  lemma CompareAntisymmetric(sortBy: string, a: Product, b: Product)
    ensures Compare(sortBy, a, b) == -Compare(sortBy, b, a)
  {
    CompareStringsAntisymmetric(b.id, a.id);
  }

  /** Every comparator's "not after" is transitive. */
  lemma CompareTransitive(sortBy: string, a: Product, b: Product, c: Product)
    requires Compare(sortBy, a, b) <= 0 && Compare(sortBy, b, c) <= 0
    ensures Compare(sortBy, a, c) <= 0
  {
    if sortBy == "newest" {
      CompareStringsTransitive(c.id, b.id, a.id);
    }
  }

  /** Being tied with a third product is transitive. */
  lemma CompareTies(sortBy: string, a: Product, b: Product, x: Product)
    requires Compare(sortBy, a, x) == 0 && Compare(sortBy, b, x) == 0
    ensures Compare(sortBy, a, b) == 0
  {
    if sortBy == "newest" {
      CompareStringsZeroIffEqual(x.id, a.id);
      CompareStringsZeroIffEqual(x.id, b.id);
      CompareStringsZeroIffEqual(b.id, a.id);
    }
  }

  lemma {:induction false} InsertPermutes(sortBy: string, x: Product, s: seq<Product>)
    ensures multiset(Insert(sortBy, x, s)) == multiset(s) + multiset{x}
    ensures |Insert(sortBy, x, s)| == |s| + 1
    decreases |s|
  {
    if |s| > 0 && Compare(sortBy, x, s[0]) > 0 {
      InsertPermutes(sortBy, x, s[1..]);
      assert s == [s[0]] + s[1..];
    }
  }

  /** The sort returns a permutation of its input. */
  lemma {:induction false} SortPermutes(sortBy: string, s: seq<Product>)
    ensures multiset(SortProducts(sortBy, s)) == multiset(s)
    ensures |SortProducts(sortBy, s)| == |s|
    decreases |s|
  {
    if |s| > 0 {
      SortPermutes(sortBy, s[1..]);
      InsertPermutes(sortBy, s[0], SortProducts(sortBy, s[1..]));
      assert s == [s[0]] + s[1..];
    }
  }

  lemma {:induction false} InsertSorted(sortBy: string, x: Product, s: seq<Product>)
    requires Sorted(sortBy, s)
    ensures Sorted(sortBy, Insert(sortBy, x, s))
    ensures Insert(sortBy, x, s)[0] == x || (|s| > 0 && Insert(sortBy, x, s)[0] == s[0])
    decreases |s|
  {
    if |s| > 0 && Compare(sortBy, x, s[0]) > 0 {
      var t := Insert(sortBy, x, s[1..]);
      InsertSorted(sortBy, x, s[1..]);
      CompareAntisymmetric(sortBy, x, s[0]);
      InsertPermutes(sortBy, x, s[1..]);
      assert Insert(sortBy, x, s) == [s[0]] + t;
      assert Compare(sortBy, s[0], t[0]) <= 0;
    }
  }

  /** The sort orders neighbours by the comparator. */
  lemma {:induction false} SortSorted(sortBy: string, s: seq<Product>)
    ensures Sorted(sortBy, SortProducts(sortBy, s))
    decreases |s|
  {
    if |s| > 0 {
      SortSorted(sortBy, s[1..]);
      InsertSorted(sortBy, s[0], SortProducts(sortBy, s[1..]));
    }
  }

  /** Neighbour order gives order between any two positions. */
  lemma {:induction false} SortedPairwise(sortBy: string, s: seq<Product>, i: int, j: int)
    requires Sorted(sortBy, s) && 0 <= i < j < |s|
    ensures Compare(sortBy, s[i], s[j]) <= 0
    decreases j - i
  {
    if j > i + 1 {
      SortedPairwise(sortBy, s, i + 1, j);
      CompareTransitive(sortBy, s[i], s[i + 1], s[j]);
    }
  }

  /** The products of `s` tied with `x` under the comparator, in order. */
  function Ties(sortBy: string, x: Product, s: seq<Product>): seq<Product>
  {
    if |s| == 0 then []
    else (if Compare(sortBy, s[0], x) == 0 then [s[0]] else []) + Ties(sortBy, x, s[1..])
  }

  lemma {:induction false} InsertTies(sortBy: string, x: Product, y: Product, s: seq<Product>)
    ensures Ties(sortBy, x, Insert(sortBy, y, s)) == Ties(sortBy, x, [y] + s)
    decreases |s|
  {
    if |s| > 0 && Compare(sortBy, y, s[0]) > 0 {
      InsertTies(sortBy, x, y, s[1..]);
      var rest := Insert(sortBy, y, s[1..]);
      assert Insert(sortBy, y, s) == [s[0]] + rest;
      assert ([y] + s)[1..] == s;
      assert ([y] + s[1..])[1..] == s[1..];
      assert ([s[0]] + rest)[1..] == rest;
      if Compare(sortBy, y, x) == 0 && Compare(sortBy, s[0], x) == 0 {
        CompareTies(sortBy, y, s[0], x);
      }
    }
  }

  /**
   * The sort is stable: the products tied with any `x` keep their relative
   * order.
   */
  lemma {:induction false} SortStable(sortBy: string, x: Product, s: seq<Product>)
    ensures Ties(sortBy, x, SortProducts(sortBy, s)) == Ties(sortBy, x, s)
    decreases |s|
  {
    if |s| > 0 {
      SortStable(sortBy, x, s[1..]);
      InsertTies(sortBy, x, s[0], SortProducts(sortBy, s[1..]));
      assert ([s[0]] + SortProducts(sortBy, s[1..]))[1..] == SortProducts(sortBy, s[1..]);
    }
  }

  /** "price-low": prices never decrease along the result. */
  lemma PriceLowAscending(s: seq<Product>)
    ensures forall i, j :: 0 <= i < j < |SortProducts("price-low", s)|
              ==> SortProducts("price-low", s)[i].price <= SortProducts("price-low", s)[j].price
  {
    var r := SortProducts("price-low", s);
    SortSorted("price-low", s);
    forall i, j | 0 <= i < j < |r| ensures r[i].price <= r[j].price {
      SortedPairwise("price-low", r, i, j);
    }
  }

  /** "price-high": prices never increase along the result. */
  lemma PriceHighDescending(s: seq<Product>)
    ensures forall i, j :: 0 <= i < j < |SortProducts("price-high", s)|
              ==> SortProducts("price-high", s)[i].price >= SortProducts("price-high", s)[j].price
  {
    var r := SortProducts("price-high", s);
    SortSorted("price-high", s);
    forall i, j | 0 <= i < j < |r| ensures r[i].price >= r[j].price {
      SortedPairwise("price-high", r, i, j);
    }
  }

  /** "newest": ids never increase along the result. */
  lemma NewestDescending(s: seq<Product>)
    ensures forall i, j :: 0 <= i < j < |SortProducts("newest", s)|
              ==> CompareStrings(SortProducts("newest", s)[j].id, SortProducts("newest", s)[i].id) <= 0
  {
    var r := SortProducts("newest", s);
    SortSorted("newest", s);
    forall i, j | 0 <= i < j < |r| ensures CompareStrings(r[j].id, r[i].id) <= 0 {
      SortedPairwise("newest", r, i, j);
    }
  }

  /** The featured products of `s`, in order. */
  function FeaturedOnly(s: seq<Product>): seq<Product>
  {
    if |s| == 0 then [] else (if IsFeatured(s[0]) then [s[0]] else []) + FeaturedOnly(s[1..])
  }

  /** The products of `s` that are not featured, in order. */
  function NotFeatured(s: seq<Product>): seq<Product>
  {
    if |s| == 0 then [] else (if IsFeatured(s[0]) then [] else [s[0]]) + NotFeatured(s[1..])
  }

  lemma {:induction false} InsertNotFeatured(x: Product, f: seq<Product>, n: seq<Product>)
    requires !IsFeatured(x)
    requires forall k :: 0 <= k < |f| ==> IsFeatured(f[k])
    requires forall k :: 0 <= k < |n| ==> !IsFeatured(n[k])
    ensures Insert("best-sellers", x, f + n) == f + [x] + n
    decreases |f|
  {
    if |f| == 0 {
      assert f + n == n;
    } else {
      assert (f + n)[0] == f[0];
      assert (f + n)[1..] == f[1..] + n;
      InsertNotFeatured(x, f[1..], n);
    }
  }

  lemma {:induction false} FeaturedOnlyAll(s: seq<Product>)
    ensures forall k :: 0 <= k < |FeaturedOnly(s)| ==> IsFeatured(FeaturedOnly(s)[k])
    ensures forall k :: 0 <= k < |NotFeatured(s)| ==> !IsFeatured(NotFeatured(s)[k])
    decreases |s|
  {
    if |s| > 0 {
      FeaturedOnlyAll(s[1..]);
    }
  }

  /**
   * "best-sellers": featured products first, then the others, each group in
   * its original order.
   */
  lemma {:induction false} BestSellersPartition(s: seq<Product>)
    ensures SortProducts("best-sellers", s) == FeaturedOnly(s) + NotFeatured(s)
    decreases |s|
  {
    if |s| > 0 {
      BestSellersPartition(s[1..]);
      var f, n := FeaturedOnly(s[1..]), NotFeatured(s[1..]);
      if IsFeatured(s[0]) {
        if |f + n| > 0 {
          assert Compare("best-sellers", s[0], (f + n)[0]) <= 0;
        }
      } else {
        FeaturedOnlyAll(s[1..]);
        InsertNotFeatured(s[0], f, n);
      }
    }
  }

  /** Any other key compares everything as equal, so the order is the filter's. */
  lemma {:induction false} OtherKeyKeepsOrder(sortBy: string, s: seq<Product>)
    requires sortBy !in {"price-low", "price-high", "newest", "best-sellers"}
    ensures SortProducts(sortBy, s) == s
    decreases |s|
  {
    if |s| > 0 {
      OtherKeyKeepsOrder(sortBy, s[1..]);
      assert s == [s[0]] + s[1..];
    }
  }

  /** What the page shows: matching products only, each as often as in the filtered list, in key order. */
  lemma ShownProducts(s: ShopState, catalog: seq<Product>)
    ensures multiset(SortedProducts(s, catalog)) == multiset(FilteredProducts(s, catalog))
    ensures forall p :: p in SortedProducts(s, catalog) ==> p in catalog && Matches(s, p)
    ensures Sorted(s.sortBy, SortedProducts(s, catalog))
  {
    var f := FilteredProducts(s, catalog);
    SortPermutes(s.sortBy, f);
    SortSorted(s.sortBy, f);
    SubsequenceMembers(f, catalog);
    forall p | p in SortedProducts(s, catalog) ensures p in catalog && Matches(s, p) {
      assert p in multiset(f);
    }
  }
}
