/** lib/products.ts: the storefront's constant product catalogue and the four
    queries over it. Only the fields the queries and the shop pages decide on
    are kept (the image, description, features, materials, colours and sizes
    are display text). */
module Catalog {
  import opened Common

  const Hats := "hats"
  const Shirts := "shirts"
  const Gifts := "gifts"

  /** The three values of the category union type. */
  predicate IsCategory(c: string) {
    c == Hats || c == Shirts || c == Gifts
  }

  /** `featured?` is optional; an absent flag is falsy, and is written `false`. */
  datatype Product = Product(
    id: int, name: string, price: string, originalPrice: Option<string>,
    category: string, inStock: bool, featured: bool)

  const Products: seq<Product> := [
    Product(1, "Classic Custom Cap", "$28", None, Hats, true, true),
    Product(2, "Trucker Hat", "$32", None, Hats, true, false),
    Product(3, "Beanie", "$24", None, Hats, true, false),
    Product(4, "Custom Team Jersey", "$89", Some("$120"), Shirts, true, true),
    Product(5, "Flame Hoodie", "$65", None, Shirts, true, true),
    Product(6, "Team Spirit Tee", "$35", None, Shirts, true, true),
    Product(7, "Performance Polo", "$45", None, Shirts, true, false),
    Product(8, "Engraved Wooden Plaque", "$55", None, Gifts, true, true),
    Product(9, "Custom Leather Keychain", "$18", None, Gifts, true, false),
    Product(10, "Acrylic Awards", "$75", None, Gifts, true, false),
    Product(11, "Custom Paper Goods", "$25", None, Gifts, true, false)
  ]

  /** The filter callback `product => product.category === c`. */
  function InCategory(c: string): Product -> bool {
    (p: Product) => p.category == c
  }

  predicate IsFeatured(p: Product) {
    p.featured
  }

  /** `products.filter(product => product.category === category)`: exactly the
      products of that category, in table order. */
  function GetProductsByCategory(c: string): (r: seq<Product>)
    ensures forall p :: p in r <==> p in Products && p.category == c
  {
    FilterMembers(Products, InCategory(c));
    Filter(Products, InCategory(c))
  }

  /** `products.filter(product => product.featured)` */
  function GetFeaturedProducts(): (r: seq<Product>)
    ensures forall p :: p in r <==> p in Products && p.featured
  {
    FilterMembers(Products, IsFeatured);
    Filter(Products, IsFeatured)
  }

  /** `s.find(product => product.id === id)`: the first product with the id. */
  function FindById(s: seq<Product>, id: int): (r: Option<Product>)
    ensures r.None? <==> forall i :: 0 <= i < |s| ==> s[i].id != id
    ensures r.Some? ==> exists i :: 0 <= i < |s| && s[i] == r.value && r.value.id == id
                                    && forall j :: 0 <= j < i ==> s[j].id != id
  {
    if s == [] then None
    else if s[0].id == id then Some(s[0])
    else
      var r := FindById(s[1..], id);
      assert r.Some? ==> exists i :: 0 <= i < |s| && s[i] == r.value && r.value.id == id
                                     && forall j :: 0 <= j < i ==> s[j].id != id by {
        if r.Some? {
          var i :| 0 <= i < |s[1..]| && s[1..][i] == r.value && r.value.id == id
                   && forall j :: 0 <= j < i ==> s[1..][j].id != id;
          assert s[i + 1] == r.value;
          forall j | 0 <= j < i + 1 ensures s[j].id != id {
            if j > 0 { assert s[j] == s[1..][j - 1]; }
          }
        }
      }
      r
  }

  /** `getProductById` */
  function GetProductById(id: int): (r: Option<Product>)
    ensures r.None? <==> forall p :: p in Products ==> p.id != id
    ensures r.Some? ==> r.value in Products && r.value.id == id
  {
    FindById(Products, id)
  }

  /** `getAllProducts` returns the table itself. */
  function GetAllProducts(): (r: seq<Product>)
    ensures r == Products
  {
    Products
  }

  /** The ids run 1 to 11 in table order, so no two products share one. */
  lemma IdsRunOneToEleven()
    ensures |Products| == 11
    ensures forall i :: 0 <= i < |Products| ==> Products[i].id == i + 1
    ensures forall i, j :: 0 <= i < j < |Products| ==> Products[i].id != Products[j].id
  {
  }

  /** Every product has one of the three categories. */
  lemma EveryProductCategorised()
    ensures forall p :: p in Products ==> IsCategory(p.category)
  {
  }

  /** A filter that keeps exactly the entries `lo..hi` of `s` returns that block. */
  lemma {:induction false} FilterBlock<T>(s: seq<T>, keep: T -> bool, lo: nat, hi: nat)
    requires lo <= hi <= |s|
    requires forall i :: lo <= i < hi ==> keep(s[i])
    requires forall i :: 0 <= i < |s| && !(lo <= i < hi) ==> !keep(s[i])
    ensures Filter(s, keep) == s[lo..hi]
  {
    if hi == 0 {
      FilterNone(s, keep);
    } else if lo > 0 {
      FilterBlock(s[1..], keep, lo - 1, hi - 1);
      assert s[1..][lo - 1..hi - 1] == s[lo..hi];
    } else {
      FilterBlock(s[1..], keep, 0, hi - 1);
      assert [s[0]] + s[1..][0..hi - 1] == s[0..hi];
    }
  }

  /** The hats are the first three products. */
  lemma HatsContents()
    ensures GetProductsByCategory(Hats) == Products[..3]
  {
    FilterBlock(Products, InCategory(Hats), 0, 3);
  }

  /** The shirts are the next four. */
  lemma ShirtsContents()
    ensures GetProductsByCategory(Shirts) == Products[3..7]
  {
    FilterBlock(Products, InCategory(Shirts), 3, 7);
  }

  /** The gifts are the last four. */
  lemma GiftsContents()
    ensures GetProductsByCategory(Gifts) == Products[7..]
  {
    FilterBlock(Products, InCategory(Gifts), 7, 11);
  }

  /** The three category results partition the table: 3 + 4 + 4 = 11. */
  lemma CategoriesPartition()
    ensures |GetProductsByCategory(Hats)| == 3
    ensures |GetProductsByCategory(Shirts)| == 4
    ensures |GetProductsByCategory(Gifts)| == 4
    ensures GetProductsByCategory(Hats) + GetProductsByCategory(Shirts) + GetProductsByCategory(Gifts) == Products
  {
    HatsContents();
    ShirtsContents();
    GiftsContents();
    assert Products[..3] + Products[3..7] + Products[7..] == Products;
  }

  /** Both queries keep table order: each result is a subsequence of the table. */
  lemma QueriesKeepTableOrder(c: string)
    ensures IsSubsequence(GetProductsByCategory(c), Products)
    ensures IsSubsequence(GetFeaturedProducts(), Products)
  {
    FilterIsSubsequence(Products, InCategory(c));
    FilterIsSubsequence(Products, IsFeatured);
  }

  /** One step of `filter` from position `i` of `s`. */
  lemma FilterStep(s: seq<Product>, i: nat, keep: Product -> bool)
    requires i < |s|
    ensures Filter(s[i..], keep) == (if keep(s[i]) then [s[i]] else []) + Filter(s[i + 1..], keep)
  {
    assert s[i..][1..] == s[i + 1..];
  }

  /** The featured flags of the catalogue, by position. */
  predicate FeaturedPattern(s: seq<Product>) {
    && |s| == 11
    && forall i :: 0 <= i < 11 ==> (s[i].featured <==> i == 0 || i == 3 || i == 4 || i == 5 || i == 7)
  }

  /** A sequence display is the concatenation of its singletons. */
  lemma Display5<T>(a: T, b: T, c: T, d: T, e: T)
    ensures [a] + ([b] + ([c] + ([d] + [e]))) == [a, b, c, d, e]
  {
  }

  /** The featured filter from the sixth entry on, stepped through. */
  lemma {:induction false} FeaturedFromSixth(s: seq<Product>)
    requires FeaturedPattern(s)
    ensures Filter(s[5..], IsFeatured) == [s[5]] + [s[7]]
  {
    assert forall i :: 0 <= i < |s[8..]| ==> s[8..][i] == s[8 + i];
    FilterNone(s[8..], IsFeatured);
    FilterStep(s, 7, IsFeatured);
    FilterStep(s, 6, IsFeatured);
    FilterStep(s, 5, IsFeatured);
  }

  /** The featured filter from the fourth entry on. */
  lemma {:induction false} FeaturedFromFourth(s: seq<Product>)
    requires FeaturedPattern(s)
    ensures Filter(s[3..], IsFeatured) == [s[3]] + ([s[4]] + ([s[5]] + [s[7]]))
  {
    FeaturedFromSixth(s);
    FilterStep(s, 4, IsFeatured);
    FilterStep(s, 3, IsFeatured);
  }

  /** The featured filter over a table flagged like the catalogue. */
  lemma {:induction false} FeaturedOf(s: seq<Product>)
    requires FeaturedPattern(s)
    ensures Filter(s, IsFeatured) == [s[0], s[3], s[4], s[5], s[7]]
  {
    FeaturedFromFourth(s);
    FilterStep(s, 2, IsFeatured);
    FilterStep(s, 1, IsFeatured);
    FilterStep(s, 0, IsFeatured);
    assert s[0..] == s;
    Display5(s[0], s[3], s[4], s[5], s[7]);
  }

  /** The featured products are the first, fourth, fifth, sixth and eighth
      entries, in that order. */
  lemma FeaturedProducts()
    ensures GetFeaturedProducts() == [Products[0], Products[3], Products[4], Products[5], Products[7]]
  {
    assert FeaturedPattern(Products);
    FeaturedOf(Products);
  }

  /** The ids of the featured products, read off the entries. */
  lemma FeaturedIdsOf(f: seq<Product>)
    requires f == [Products[0], Products[3], Products[4], Products[5], Products[7]]
    ensures |f| == 5 && f[0].id == 1 && f[1].id == 4 && f[2].id == 5 && f[3].id == 6 && f[4].id == 8
  {
    IdsRunOneToEleven();
  }

  /** The featured products are ids 1, 4, 5, 6 and 8, in that order. */
  lemma FeaturedIds()
    ensures |GetFeaturedProducts()| == 5
    ensures GetFeaturedProducts()[0].id == 1 && GetFeaturedProducts()[1].id == 4
    ensures GetFeaturedProducts()[2].id == 5 && GetFeaturedProducts()[3].id == 6
    ensures GetFeaturedProducts()[4].id == 8
  {
    FeaturedProducts();
    FeaturedIdsOf(GetFeaturedProducts());
  }

  /** `getProductById(id)` is the one product with that id for 1..11, and
      nothing for any other id. */
  lemma ProductByIdIsUnique(id: int)
    ensures 1 <= id <= 11 ==> GetProductById(id) == Some(Products[id - 1])
    ensures !(1 <= id <= 11) ==> GetProductById(id).None?
  {
    IdsRunOneToEleven();
    if 1 <= id <= 11 {
      assert Products[id - 1] in Products;
      var p := GetProductById(id).value;
      var i :| 0 <= i < |Products| && Products[i] == p;
    }
  }
}
