/** The search results panel: the filter and sort the user picks over the
    stored results, the status line, and the panel's add-to-cart and
    wishlist buttons. */
module SearchResults {
  import opened Base
  import opened Products
  import opened Text
  import Seqs
  import Sorting
  import Cart
  import Wishlist

  datatype SortOption = Relevance | PriceLow | PriceHigh | Rating | ByName
  datatype FilterOption = All | OnSale | NewArrivals

  /** The on-sale filter: a truthy original price above the price. */
  predicate OnSaleProduct(p: Product) {
    Discounted(p.originalPrice, p.price)
  }

  /** The new-arrivals filter: the badge is exactly `New`. */
  predicate NewArrival(p: Product) {
    p.badge == Some("New")
  }

  /** What a filter option demands of a product; `All` demands nothing. */
  predicate Admits(f: FilterOption, p: Product) {
    match f
    case All => true
    case OnSale => OnSaleProduct(p)
    case NewArrivals => NewArrival(p)
  }

  function AdmittedBy(f: FilterOption): Product -> bool {
    p => Admits(f, p)
  }

  /** The filter step: the admitted results in their stored order. */
  function ApplyFilter(results: seq<Product>, f: FilterOption): (r: seq<Product>)
    ensures f == All ==> r == results
    ensures forall i :: 0 <= i < |r| ==> r[i] in results && Admits(f, r[i])
    ensures forall i :: 0 <= i < |results| && Admits(f, results[i]) ==> results[i] in r
    ensures Seqs.IsSubseq(r, results)
  {
    if f == All then
      Seqs.FilterKeepsAll(results, AdmittedBy(f));
      Seqs.FilterIsSubseq(results, AdmittedBy(f));
      results
    else
      Seqs.FilterIsSubseq(results, AdmittedBy(f));
      Seqs.Filter(results, AdmittedBy(f))
  }

  /** The comparator of each sort option, as "may come first". The name
      order is `localeCompare`, supplied as `collate`; relevance keeps the
      stored order and puts no constraint on it. */
  function SortOrder(s: SortOption, collate: (string, string) -> bool): (Product, Product) -> bool {
    match s
    case Relevance => (a: Product, b: Product) => true
    case PriceLow => (a: Product, b: Product) => a.price <= b.price
    case PriceHigh => (a: Product, b: Product) => b.price <= a.price
    case Rating => (a: Product, b: Product) => NumberOrZero(b.rating) <= NumberOrZero(a.rating)
    case ByName => (a: Product, b: Product) => collate(a.name, b.name)
  }

  /** Every option's order is a total preorder, the name order as soon as
      the collation is one. */
  lemma SortOrderTotal(s: SortOption, collate: (string, string) -> bool)
    requires s == ByName ==> Sorting.TotalPreorder(collate)
    ensures Sorting.TotalPreorder(SortOrder(s, collate))
  {
    if s == ByName {
      var le := SortOrder(s, collate);
      forall a: Product, b: Product ensures le(a, b) || le(b, a) {
        assert collate(a.name, b.name) || collate(b.name, a.name);
      }
      forall a: Product, b: Product, c: Product | le(a, b) && le(b, c) ensures le(a, c) {
        assert collate(a.name, b.name) && collate(b.name, c.name);
      }
    }
  }

  /** The sort step on a copy of the filtered list; relevance returns it
      unchanged. */
  function ApplySort(xs: seq<Product>, s: SortOption, collate: (string, string) -> bool): (r: seq<Product>)
    ensures multiset(r) == multiset(xs)
    ensures s == Relevance ==> r == xs
  {
    if s == Relevance then xs else Sorting.SortBy(xs, SortOrder(s, collate))
  }

  /** `processedResults`: the filtered results, sorted. */
  function Processed(results: seq<Product>, f: FilterOption, s: SortOption,
                     collate: (string, string) -> bool): (r: seq<Product>)
    ensures |r| <= |results|
    ensures multiset(r) == multiset(ApplyFilter(results, f))
    ensures forall i :: 0 <= i < |r| ==> r[i] in results && Admits(f, r[i])
    ensures f == All && s == Relevance ==> r == results
  {
    var filtered := ApplyFilter(results, f);
    var r := ApplySort(filtered, s, collate);
    assert |r| == |multiset(r)| == |multiset(filtered)| == |filtered|;
    forall i | 0 <= i < |r| ensures r[i] in results && Admits(f, r[i]) {
      assert r[i] in multiset(r);
      assert r[i] in multiset(filtered);
    }
    r
  }

  /** The processed list is ordered by the chosen option. */
  lemma ProcessedSorted(results: seq<Product>, f: FilterOption, s: SortOption,
                        collate: (string, string) -> bool)
    requires s == ByName ==> Sorting.TotalPreorder(collate)
    ensures Sorting.Sorted(Processed(results, f, s, collate), SortOrder(s, collate))
  {
    SortOrderTotal(s, collate);
    if s != Relevance {
      Sorting.SortBySorted(ApplyFilter(results, f), SortOrder(s, collate));
    }
  }

  /** Products the chosen order ranks equal stay in search order. */
  lemma ProcessedStable(results: seq<Product>, f: FilterOption, s: SortOption,
                        collate: (string, string) -> bool, k: Product)
    requires s == ByName ==> Sorting.TotalPreorder(collate)
    ensures var le := SortOrder(s, collate);
            Sorting.EqualRank(Processed(results, f, s, collate), le, k)
              == Sorting.EqualRank(ApplyFilter(results, f), le, k)
  {
    SortOrderTotal(s, collate);
    if s != Relevance {
      Sorting.SortByStable(ApplyFilter(results, f), SortOrder(s, collate), k);
    }
  }

  /** `result` or `results` after the count. */
  function ResultNoun(count: nat): string {
    if count == 1 then " result found" else " results found"
  }

  /** The status line above the results. */
  function StatusText(isSearching: bool, hasSearched: bool, count: nat): (r: string)
    ensures isSearching ==> r == "Searching..."
    ensures !isSearching && !hasSearched ==> r == "Enter a search term"
    ensures !isSearching && hasSearched ==>
              && |NatToString(count)| <= |r|
              && r[..|NatToString(count)|] == NatToString(count)
              && r[|NatToString(count)|..] == ResultNoun(count)
  {
    if isSearching then "Searching..."
    else if hasSearched then NatToString(count) + ResultNoun(count)
    else "Enter a search term"
  }

  /** After a search, the count can be read back from the front of the
      status line, and the noun is plural exactly when the count is not
      one. */
  lemma StatusTextCount(count: nat)
    ensures var r := StatusText(false, true, count);
            var n := |NatToString(count)|;
            && n < |r|
            && DigitsValue(r[..n]) == count
            && r[n] == ' '
            && (r[n + 7] == 's' <==> count != 1)
  {
    NatToStringRoundTrip(count);
  }

  /** The footer shows the processed count against the stored count, and
      the first never exceeds the second. */
  lemma ShowingAtMostStored(results: seq<Product>, f: FilterOption, s: SortOption,
                            collate: (string, string) -> bool)
    ensures |Processed(results, f, s, collate)| <= |results|
    ensures f == All ==> |Processed(results, f, s, collate)| == |results|
  {
    var r := Processed(results, f, s, collate);
    assert |r| == |multiset(r)| == |multiset(ApplyFilter(results, f))| == |ApplyFilter(results, f)|;
  }

  /** The panel's add-to-cart: the product's snapshot with no size. */
  function AddFromResults(lines: seq<Cart.CartLine>, p: Product): (r: seq<Cart.CartLine>)
    ensures Cart.GetItemQuantity(r, p.id, None) == Cart.GetItemQuantity(lines, p.id, None) + 1
    ensures forall id, s :: (id != p.id || s != None) ==>
              Cart.GetItemQuantity(r, id, s) == Cart.GetItemQuantity(lines, id, s)
    ensures !Cart.KeyPresent(lines, p.id, None) ==> r == lines + [Cart.CartLine(p.Info(), None, 1)]
    ensures Cart.KeyPresent(lines, p.id, None) ==>
              Cart.TotalPrice(r) == Cart.TotalPrice(lines) + Cart.UnitPrice(lines[Cart.FindKey(lines, p.id, None)].info)
    ensures !Cart.KeyPresent(lines, p.id, None) ==>
              Cart.TotalPrice(r) == Cart.TotalPrice(lines) + Cart.UnitPrice(p.Info())
    ensures Cart.IsInCart(r, p.id, None)
    ensures Cart.Valid(lines) ==> Cart.Valid(r)
  {
    Cart.AddThenInCart(lines, p.Info(), None);
    Cart.TotalPriceAdd(lines, p.Info(), None);
    Cart.AddToCart(lines, p.Info(), None)
  }

  /** The panel's heart button: toggles the product's snapshot, rating
      included. */
  function ToggleFromResults(items: seq<WishlistItem>, p: Product): (r: seq<WishlistItem>)
    ensures Wishlist.IsInWishlist(r, p.id) <==> !Wishlist.IsInWishlist(items, p.id)
    ensures Wishlist.Ids(r) == if Wishlist.IsInWishlist(items, p.id) then Wishlist.Ids(items) - {p.id}
                               else Wishlist.Ids(items) + {p.id}
    ensures Wishlist.IsInWishlist(items, p.id) ==> Seqs.IsSubseq(r, items)
    ensures !Wishlist.IsInWishlist(items, p.id) ==> r == items + [WishlistSnapshot(p)]
    ensures Wishlist.Valid(items) ==> Wishlist.Valid(r)
  {
    Wishlist.ToggleWishlist(items, WishlistSnapshot(p))
  }
}
