/** The product entity and the constant catalog of the storefront. */
module Products {
  import opened Options

  /** The four categories the `Product` type admits. */
  datatype Category = Necklaces | Rings | Earrings | Bracelets

  /** The string the source stores for each category. */
  function CategoryName(c: Category): string
  {
    match c
    case Necklaces => "necklaces"
    case Rings => "rings"
    case Earrings => "earrings"
    case Bracelets => "bracelets"
  }

  /**
   * A catalog product. `featured` is optional (absent reads as `undefined`);
   * the type has no `material` field.
   */
  datatype Product = Product(
    id: string,
    name: string,
    price: int,
    category: Category,
    image: string,
    description: string,
    featured: Option<bool>)

  /** JavaScript truthiness of the optional `featured` flag. */
  predicate IsFeatured(p: Product)
  {
    p.featured == Some(true)
  }

  /** `list.find(item => item.id === id)`: the first product carrying `id`. */
  function FindById(list: seq<Product>, id: string): (r: Option<Product>)
    ensures r.Some? <==> exists i :: 0 <= i < |list| && list[i].id == id
    ensures r.Some? ==> r.value in list && r.value.id == id
    ensures r.Some? ==> exists i :: 0 <= i < |list| && list[i] == r.value
                                   && forall j :: 0 <= j < i ==> list[j].id != id
  {
    if |list| == 0 then None
    else if list[0].id == id then Some(list[0])
    else
      var r := FindById(list[1..], id);
      assert forall i :: 1 <= i < |list| ==> list[i] == list[1..][i - 1];
      r
  }

  const NecklaceImage := "assets/necklace-1.jpg"
  const RingImage := "assets/ring-1.jpg"
  const EarringsImage := "assets/earrings-1.jpg"
  const BraceletImage := "assets/bracelet-1.jpg"

  /** The product list every page reads. */
  const Catalog: seq<Product> := [
    Product("1", "Diamond Teardrop Necklace", 45999, Necklaces, NecklaceImage,
      "An exquisite teardrop diamond pendant set in 18K gold, perfect for elegant evenings. Features a brilliant-cut center stone surrounded by micro-pavé diamonds.",
      Some(true)),
    Product("2", "Halo Engagement Ring", 89999, Rings, RingImage,
      "A stunning engagement ring featuring a brilliant round-cut diamond in a halo setting. Crafted in 18K rose gold with exceptional sparkle and clarity.",
      Some(true)),
    Product("3", "Crystal Drop Earrings", 28999, Earrings, EarringsImage,
      "Luxurious gold drop earrings adorned with pear-shaped crystals and delicate diamond accents. Perfect for special occasions and elegant gatherings.",
      Some(true)),
    Product("4", "Gemstone Tennis Bracelet", 67999, Bracelets, BraceletImage,
      "A sophisticated tennis bracelet featuring alternating diamonds and colored gemstones in 18K gold. Adjustable clasp ensures perfect fit.",
      Some(true)),
    Product("5", "Infinity Diamond Necklace", 52999, Necklaces, NecklaceImage,
      "Symbol of eternal love, this infinity pendant is adorned with brilliant diamonds and set in lustrous 18K white gold.",
      None),
    Product("6", "Sapphire Wedding Band", 38999, Rings, RingImage,
      "Classic wedding band featuring channel-set sapphires and diamonds. Timeless design in 18K yellow gold.",
      None),
    Product("7", "Pearl Stud Earrings", 15999, Earrings, EarringsImage,
      "Elegant freshwater pearl studs with gold settings. Perfect for everyday sophistication.",
      None),
    Product("8", "Charm Link Bracelet", 42999, Bracelets, BraceletImage,
      "Delicate link bracelet with customizable charms. Crafted in 18K rose gold with secure clasp.",
      None)
  ]

  /** No two entries of `list` share an id. */
  ghost predicate DistinctIds(list: seq<Product>)
  {
    forall i, j :: 0 <= i < j < |list| ==> list[i].id != list[j].id
  }

  /** The catalog holds eight products with ids "1" to "8", in that order, all different. */
  lemma CatalogIds()
    ensures |Catalog| == 8
    ensures forall i :: 0 <= i < |Catalog| ==> Catalog[i].id == [('1' as int + i) as char]
    ensures DistinctIds(Catalog)
  {
    CatalogIdDigits();
    IndexedIdsDistinct(Catalog);
  }

  lemma CatalogIdDigits()
    ensures |Catalog| == 8
    ensures forall i :: 0 <= i < |Catalog| ==> Catalog[i].id == [('1' as int + i) as char]
  {
  }

  /** Ids written as the digit of their one-based position never repeat. */
  lemma IndexedIdsDistinct(list: seq<Product>)
    requires |list| <= 9
    requires forall i :: 0 <= i < |list| ==> list[i].id == [('1' as int + i) as char]
    ensures DistinctIds(list)
  {
    forall i, j | 0 <= i < j < |list|
      ensures list[i].id != list[j].id
    {
      assert list[i].id[0] != list[j].id[0];
    }
  }

  /** Every price is a positive whole amount below the top of the price slider. */
  lemma CatalogPrices()
    ensures forall p :: p in Catalog ==> 0 < p.price < 500000
  {
  }

  /** Exactly the first four products are featured; the others leave the flag out. */
  lemma CatalogFeatured()
    ensures forall i :: 0 <= i < 4 ==> Catalog[i].featured == Some(true)
    ensures forall i :: 4 <= i < |Catalog| ==> Catalog[i].featured == None
  {
  }

  /** Every category holds exactly two catalog products. */
  lemma CatalogCategories()
    ensures forall i :: 0 <= i < 4 ==> Catalog[i].category == Catalog[i + 4].category
    ensures forall i, j :: 0 <= i < j < 4 ==> Catalog[i].category != Catalog[j].category
  {
  }

  /** In a list without repeated ids, looking up an entry's id finds that entry. */
  lemma FindDistinct(list: seq<Product>, i: nat)
    requires DistinctIds(list) && i < |list|
    ensures FindById(list, list[i].id) == Some(list[i])
  {
    var r := FindById(list, list[i].id);
    var k :| 0 <= k < |list| && list[k] == r.value
             && forall j :: 0 <= j < k ==> list[j].id != list[i].id;
    assert k >= i ==> k == i;
  }

  /** Looking up a catalog id finds that catalog entry. */
  lemma FindCatalogId(i: nat)
    requires i < |Catalog|
    ensures FindById(Catalog, Catalog[i].id) == Some(Catalog[i])
  {
    CatalogIds();
    FindDistinct(Catalog, i);
  }
}
