/** components/shop/shop-layout.tsx: the shop page's selected category, kept
    in step with the pathname, and what the page derives from it: the list
    shown, the per-category counts and the title. */
module ShopLayout {
  import opened Common
  import opened Catalog

  const ShopPath := "/shop"

  /** The path of a category's page. */
  function CategoryPath(c: string): string {
    ShopPath + "/" + c
  }

  /** The effect on `pathname`: the first of `/shop/hats`, `/shop/shirts`
      and `/shop/gifts` that the path contains picks the category; a path
      containing none of them selects nothing. */
  function CategoryFromPath(pathname: string): (c: Option<string>)
    ensures c.Some? ==> IsCategory(c.value) && Includes(pathname, CategoryPath(c.value))
    ensures c.None? <==> forall k :: IsCategory(k) ==> !Includes(pathname, CategoryPath(k))
    ensures c == Some(Shirts) ==> !Includes(pathname, CategoryPath(Hats))
    ensures c == Some(Gifts) ==> !Includes(pathname, CategoryPath(Hats)) && !Includes(pathname, CategoryPath(Shirts))
  {
    assert CategoryPath(Hats) == "/shop/hats" && CategoryPath(Shirts) == "/shop/shirts"
        && CategoryPath(Gifts) == "/shop/gifts";
    if Includes(pathname, "/shop/hats") then Some(Hats)
    else if Includes(pathname, "/shop/shirts") then Some(Shirts)
    else if Includes(pathname, "/shop/gifts") then Some(Gifts)
    else None
  }

  /** `selectedCategory ? getProductsByCategory(selectedCategory) : allProducts`;
      the empty string is falsy and shows everything too. */
  function FilteredProducts(selected: Option<string>): (r: seq<Product>)
    ensures forall p :: p in r <==> p in Products && (selected.None? || selected.value == "" || p.category == selected.value)
  {
    if selected.Some? && selected.value != "" then GetProductsByCategory(selected.value) else GetAllProducts()
  }

  /** `productCounts` */
  datatype ProductCounts = ProductCounts(all: nat, hats: nat, shirts: nat, gifts: nat)

  /** The count for everything is the sum of the three category counts,
      because every product has one of the three categories. */
  function Counts(): (r: ProductCounts)
    ensures r.all == |Products|
    ensures r.all == r.hats + r.shirts + r.gifts
  {
    CategoriesPartition();
    ProductCounts(|GetAllProducts()|, |GetProductsByCategory(Hats)|,
                  |GetProductsByCategory(Shirts)|, |GetProductsByCategory(Gifts)|)
  }

  /** The badges read 11, 3, 4 and 4. */
  lemma CountValues()
    ensures Counts() == ProductCounts(11, 3, 4, 4)
  {
    CategoriesPartition();
  }

  /** `getCategoryTitle` */
  function CategoryTitle(selected: Option<string>): (t: string)
    ensures selected == Some(Hats) ==> t == "Custom Hats"
    ensures selected == Some(Shirts) ==> t == "Custom Shirts"
    ensures selected == Some(Gifts) ==> t == "Custom Gifts"
    ensures !(selected.Some? && IsCategory(selected.value)) ==> t == "All Products"
  {
    match selected
    case Some(c) =>
      if c == Hats then "Custom Hats"
      else if c == Shirts then "Custom Shirts"
      else if c == Gifts then "Custom Gifts"
      else "All Products"
    case None => "All Products"
  }

  /** No category page path contains another's. */
  lemma CategoryPathsDistinct()
    ensures !Includes(CategoryPath(Shirts), CategoryPath(Hats))
    ensures !Includes(CategoryPath(Gifts), CategoryPath(Hats))
    ensures !Includes(CategoryPath(Gifts), CategoryPath(Shirts))
  {
    var hats, shirts, gifts := CategoryPath(Hats), CategoryPath(Shirts), CategoryPath(Gifts);
    assert hats == "/shop/hats" && shirts == "/shop/shirts" && gifts == "/shop/gifts";
    assert shirts[6] != hats[6];
    NotIncludes(shirts, hats);
    assert gifts[6] != hats[6];
    NotIncludes(gifts, hats);
    IncludesShorter(gifts, shirts);
  }

  /** A category's page path selects that category: parsing undoes the route
      the sidebar builds. */
  lemma PathRoundTrip(c: string)
    requires IsCategory(c)
    ensures CategoryFromPath(CategoryPath(c)) == Some(c)
  {
    var p := CategoryPath(c);
    assert StartsWith(p, p);
    if c != Hats {
      CategoryPathsDistinct();
    }
  }

  /** The shop's own path selects no category. */
  lemma ShopPathSelectsNone()
    ensures CategoryFromPath(ShopPath) == None
  {
    IncludesShorter(ShopPath, CategoryPath(Hats));
    IncludesShorter(ShopPath, CategoryPath(Shirts));
    IncludesShorter(ShopPath, CategoryPath(Gifts));
  }

  /** The shop page's state. */
  class ShopState {
    var selectedCategory: Option<string>

    constructor ()
      ensures selectedCategory == None
    {
      selectedCategory := None;
    }

    /** The effect that runs whenever the pathname changes. */
    method OnPathname(pathname: string)
      modifies this
      ensures selectedCategory == CategoryFromPath(pathname)
    {
      if Includes(pathname, "/shop/hats") {
        selectedCategory := Some(Hats);
      } else if Includes(pathname, "/shop/shirts") {
        selectedCategory := Some(Shirts);
      } else if Includes(pathname, "/shop/gifts") {
        selectedCategory := Some(Gifts);
      } else {
        selectedCategory := None;
      }
    }

    /** `setSelectedCategory`, handed to the sidebar as `onCategoryChange`. */
    method OnCategoryChange(category: Option<string>)
      modifies this
      ensures selectedCategory == category
    {
      selectedCategory := category;
    }

    /** The products handed to the grid. */
    function Shown(): seq<Product>
      reads this
    {
      FilteredProducts(selectedCategory)
    }

    /** The grid's title. */
    function Title(): string
      reads this
    {
      CategoryTitle(selectedCategory)
    }
  }
}
