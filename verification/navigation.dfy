/** The navigation bar: where a menu click leads and what it forwards to
    the page, and the search form's submit handler. Navigation itself is
    the router's; here a click yields the path it would navigate to. */
module Navigation {
  import opened Base
  import opened Text
  import opened Slugs
  import Cart
  import Search
  import Products

  /** The arguments handed on to the page's `onNavCategoryClick`. */
  datatype Forwarded = Forwarded(category: string, subcategory: Option<string>, item: Option<string>)

  /** What one click does: the path navigated to, if any, and the call
      forwarded to the page, if any. */
  datatype ClickOutcome = ClickOutcome(path: Option<string>, forwarded: Option<Forwarded>)

  const ProductsPrefix: string := "/products/"

  /** The three categories with a fixed page of their own. */
  function SpecialPath(category: string): Option<string> {
    if category == "home" then Some("/")
    else if category == "gallery" then Some("/gallery")
    else if category == "sale" then Some("/sale")
    else None
  }

  /** `/products/` followed by the item's slug. */
  function ProductPath(item: string): (r: string)
    ensures |r| == |ProductsPrefix| + |item| && r[..|ProductsPrefix|] == ProductsPrefix
    ensures forall i :: |ProductsPrefix| <= i < |r| ==> r[i] != ' ' && !IsUpper(r[i])
  {
    ProductsPrefix + Slug(item)
  }

  /** `handleCategoryClick`: `home`, `gallery` and `sale` navigate to their
      page and stop there; any other category navigates to the item's page
      when an item is given, and then forwards the click unchanged when the
      page listens. */
  function HandleCategoryClick(category: string, subcategory: Option<string>, item: Option<string>,
                               hasHandler: bool): (r: ClickOutcome)
    ensures category == "home" ==> r == ClickOutcome(Some("/"), None)
    ensures category == "gallery" ==> r == ClickOutcome(Some("/gallery"), None)
    ensures category == "sale" ==> r == ClickOutcome(Some("/sale"), None)
    ensures SpecialPath(category).None? ==>
              && (r.path.Some? <==> TruthyString(item))
              && (TruthyString(item) ==> r.path == Some(ProductPath(item.value)))
              && (r.forwarded.Some? <==> hasHandler)
              && (hasHandler ==> r.forwarded == Some(Forwarded(category, subcategory, item)))
  {
    if SpecialPath(category).Some? then ClickOutcome(SpecialPath(category), None)
    else
      var path := if TruthyString(item) then Some(ProductPath(item.value)) else None;
      var fwd := if hasHandler then Some(Forwarded(category, subcategory, item)) else None;
      ClickOutcome(path, fwd)
  }

  /** The part of a product path the category page receives as its
      parameter. */
  function RouteParam(path: string): Option<string> {
    if |path| >= |ProductsPrefix| && path[..|ProductsPrefix|] == ProductsPrefix
    then Some(path[|ProductsPrefix|..]) else None
  }

  /** The path an item click leads to carries that item's slug as the
      category page's parameter. */
  lemma ItemClickRoute(category: string, subcategory: Option<string>, item: string, hasHandler: bool)
    requires SpecialPath(category).None? && item != ""
    ensures var r := HandleCategoryClick(category, subcategory, Some(item), hasHandler);
            r.path.Some? && RouteParam(r.path.value) == Some(Slug(item))
  {
    var p := ProductPath(item);
    assert p[|ProductsPrefix|..] == Slug(item);
  }

  /** A click with a subcategory but no item navigates nowhere. */
  lemma SubcategoryClickHasNoPath(category: string, subcategory: string, hasHandler: bool)
    requires SpecialPath(category).None?
    ensures HandleCategoryClick(category, Some(subcategory), None, hasHandler).path == None
  {
  }

  /** The menu's "Apparel" items. */
  const ApparelItems: seq<string> := [
    "Bucket Hats", "Camo Long Jackets", "Caps", "Hoodies", "Nkoyoyo Photohoot",
    "Quilted puff jacket", "Shorts", "Sweaters", "Tracksuits"
  ]

  /** The menu's "Footwear" items. */
  const FootwearItems: seq<string> := ["Sneakers", "Slides & Sandals", "Football Boots", "View All"]

  /** `handleSearch`: the submit only logs the query; no store changes. */
  function HandleSearch(cart: seq<Cart.CartLine>, wishlist: seq<Products.WishlistItem>,
                        search: Search.SearchState, query: string)
    : (r: (seq<Cart.CartLine>, seq<Products.WishlistItem>, Search.SearchState, string))
    ensures r.0 == cart && r.1 == wishlist && r.2 == search
    ensures |r.3| == |"Searching for: "| + |query|
    ensures r.3[..|"Searching for: "|] == "Searching for: " && r.3[|"Searching for: "|..] == query
  {
    (cart, wishlist, search, "Searching for: " + query)
  }
}
