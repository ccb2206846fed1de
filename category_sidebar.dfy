/** components/shop/category-sidebar.tsx: the category list beside the shop
    grid, with a count badge per entry, the selected entry highlighted, and a
    click that selects a category and navigates to its page. */
module CategorySidebar {
  import opened Common
  import opened Catalog
  import opened ShopLayout

  /** One entry of the list: its category id (`null` for everything) and the
      name shown. */
  datatype Entry = Entry(id: Option<string>, name: string)

  const Entries: seq<Entry> := [
    Entry(None, "All Products"),
    Entry(Some(Hats), "Custom Hats"),
    Entry(Some(Shirts), "Custom Shirts"),
    Entry(Some(Gifts), "Custom Gifts")
  ]

  /** What a click sets off, in order: the parent's `onCategoryChange`, then
      the router's navigation. */
  datatype Effect = CategoryChange(category: Option<string>) | Navigate(route: string)

  /** `handleCategoryClick` */
  function HandleCategoryClick(id: Option<string>): (effects: seq<Effect>)
    ensures |effects| == 2 && effects[0] == CategoryChange(id) && effects[1].Navigate?
    ensures id.None? ==> effects[1].route == ShopPath
    ensures id.Some? ==> effects[1].route == CategoryPath(id.value)
  {
    match id
    case None => [CategoryChange(id), Navigate("/shop")]
    case Some(c) => [CategoryChange(id), Navigate("/shop/" + c)]
  }

  /** The badge count of an entry: `all` for `null`, the hats and shirts
      counts for those ids, and the gifts count for any other id. */
  function CountFor(id: Option<string>, counts: ProductCounts): (n: nat)
    ensures id.None? ==> n == counts.all
    ensures id == Some(Hats) ==> n == counts.hats
    ensures id == Some(Shirts) ==> n == counts.shirts
    ensures id.Some? && id.value != Hats && id.value != Shirts ==> n == counts.gifts
  {
    match id
    case None => counts.all
    case Some(c) =>
      if c == Hats then counts.hats
      else if c == Shirts then counts.shirts
      else counts.gifts
  }

  /** `selectedCategory === category.id` */
  predicate IsSelected(selected: Option<string>, e: Entry) {
    selected == e.id
  }

  /** The badge of the entry for everything counts the whole table. */
  lemma AllBadge(id: Option<string>)
    requires id.None?
    ensures CountFor(id, Counts()) == |FilteredProducts(id)|
  {
    CountValues();
  }

  /** The badge of a category entry counts the products of that category. */
  lemma HatsBadge(id: Option<string>)
    requires id == Some(Hats)
    ensures CountFor(id, Counts()) == |FilteredProducts(id)|
  {
    CountValues();
    HatsContents();
  }

  lemma ShirtsBadge(id: Option<string>)
    requires id == Some(Shirts)
    ensures CountFor(id, Counts()) == |FilteredProducts(id)|
  {
    CountValues();
    ShirtsContents();
  }

  lemma GiftsBadge(id: Option<string>)
    requires id == Some(Gifts)
    ensures CountFor(id, Counts()) == |FilteredProducts(id)|
  {
    CountValues();
    GiftsContents();
  }

  /** Every entry's badge counts exactly the products the grid shows once
      that entry is selected. */
  lemma BadgeCountsShownProducts(id: Option<string>)
    requires id.None? || IsCategory(id.value)
    ensures CountFor(id, Counts()) == |FilteredProducts(id)|
  {
    if id.None? {
      AllBadge(id);
    } else if id.value == Hats {
      HatsBadge(id);
    } else if id.value == Shirts {
      ShirtsBadge(id);
    } else {
      GiftsBadge(id);
    }
  }

  /** When the selection is one of the four ids, exactly one entry is
      highlighted, and the grid's title is that entry's name. */
  lemma ExactlyOneSelected(selected: Option<string>)
    requires selected.None? || IsCategory(selected.value)
    ensures exists i :: 0 <= i < |Entries| && IsSelected(selected, Entries[i])
    ensures forall i, j ::
              (0 <= i < |Entries| && 0 <= j < |Entries| && IsSelected(selected, Entries[i])
               && IsSelected(selected, Entries[j])) ==> i == j
    ensures forall i :: 0 <= i < |Entries| && IsSelected(selected, Entries[i]) ==> CategoryTitle(selected) == Entries[i].name
  {
    var i := if selected.None? then 0 else if selected.value == Hats then 1 else if selected.value == Shirts then 2 else 3;
    assert IsSelected(selected, Entries[i]);
  }

  /** Clicking an entry selects its id, and the page it navigates to selects
      that same id again when the shop layout reads the new pathname. */
  lemma ClickAgreesWithPath(i: nat)
    requires i < |Entries|
    ensures var effects := HandleCategoryClick(Entries[i].id);
            effects[0] == CategoryChange(Entries[i].id)
            && CategoryFromPath(effects[1].route) == Entries[i].id
  {
    if Entries[i].id.Some? { PathRoundTrip(Entries[i].id.value); } else { ShopPathSelectsNone(); }
  }
}
