/** The home page's catalog listing: the filter drop-down and the category
    remembered from the navigation menu. */
module IndexPage {
  import opened Base
  import opened Products
  import Seqs

  /** The drop-down's values in menu order. */
  const FilterValues: seq<string> := [
    "all", "Bucket Hats", "Camo Long Jackets", "Caps", "Hoodies",
    "Quilted puff jacket", "Shorts", "Sweaters", "Tracksuits", "Brands"
  ]

  /** `product.brand` is truthy. */
  predicate HasBrand(p: Product) {
    TruthyString(p.brand)
  }

  function Branded(): Product -> bool {
    (p: Product) => HasBrand(p)
  }

  function InCategory(value: string): Product -> bool {
    (p: Product) => p.category == Some(value)
  }

  /** What `handleFilterChange` leaves behind: the chosen value and the
      products shown. */
  datatype Listing = Listing(selectedFilter: string, shown: seq<Product>)

  /** `handleFilterChange`: `all` shows everything, `Brands` the products
      with a brand, any other value the products of exactly that category;
      catalog order is kept in every case. */
  function HandleFilterChange(products: seq<Product>, value: string): (r: Listing)
    ensures r.selectedFilter == value
    ensures value == "all" ==> r.shown == products
    ensures value == "Brands" ==>
              && (forall i :: 0 <= i < |r.shown| ==> r.shown[i] in products && HasBrand(r.shown[i]))
              && (forall i :: 0 <= i < |products| && HasBrand(products[i]) ==> products[i] in r.shown)
    ensures value != "all" && value != "Brands" ==>
              && (forall i :: 0 <= i < |r.shown| ==> r.shown[i] in products && r.shown[i].category == Some(value))
              && (forall i :: 0 <= i < |products| && products[i].category == Some(value) ==> products[i] in r.shown)
    ensures Seqs.IsSubseq(r.shown, products)
  {
    if value == "all" then
      Seqs.FilterKeepsAll(products, (p: Product) => true);
      Seqs.FilterIsSubseq(products, (p: Product) => true);
      Listing(value, products)
    else if value == "Brands" then
      Seqs.FilterIsSubseq(products, Branded());
      Listing(value, Seqs.Filter(products, Branded()))
    else
      Seqs.FilterIsSubseq(products, InCategory(value));
      Listing(value, Seqs.Filter(products, InCategory(value)))
  }

  /** Choosing a category and then narrowing the catalog is the same as
      narrowing each part: the listing of a concatenation is the
      concatenation of the listings. */
  lemma FilterChangeAppend(a: seq<Product>, b: seq<Product>, value: string)
    ensures HandleFilterChange(a + b, value).shown
              == HandleFilterChange(a, value).shown + HandleFilterChange(b, value).shown
  {
    if value == "Brands" {
      Seqs.FilterAppend(a, b, Branded());
    } else if value != "all" {
      Seqs.FilterAppend(a, b, InCategory(value));
    }
  }

  /** `handleNavCategoryClick`: the item if truthy, else the subcategory if
      truthy, else the category if non-empty; otherwise the selection stays. */
  function HandleNavCategoryClick(selected: string, category: string, subcategory: Option<string>,
                                  item: Option<string>): (r: string)
    ensures TruthyString(item) ==> r == item.value
    ensures !TruthyString(item) && TruthyString(subcategory) ==> r == subcategory.value
    ensures !TruthyString(item) && !TruthyString(subcategory) && category != "" ==> r == category
    ensures !TruthyString(item) && !TruthyString(subcategory) && category == "" ==> r == selected
  {
    if TruthyString(item) then item.value
    else if TruthyString(subcategory) then subcategory.value
    else if category != "" then category
    else selected
  }

  /** Repeating a menu click changes nothing more, and the outcome of a click
      that names something does not depend on the earlier selection. */
  lemma NavClickIdempotent(selected: string, other: string, category: string,
                           subcategory: Option<string>, item: Option<string>)
    ensures var once := HandleNavCategoryClick(selected, category, subcategory, item);
            HandleNavCategoryClick(once, category, subcategory, item) == once
    ensures TruthyString(item) || TruthyString(subcategory) || category != "" ==>
              HandleNavCategoryClick(selected, category, subcategory, item)
                == HandleNavCategoryClick(other, category, subcategory, item)
  {
  }
}
