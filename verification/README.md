# Kit Kulture storefront — a Dafny model of its store logic

This project models the logic of a small React storefront as pure Dafny
functions and proves properties of it. The storefront sells apparel from a
static catalog.

- **Cart store** (`Cart`): add, remove, update and clear. Lines are keyed by
  product id and size. It also covers the item count, the total price and the
  look-ups.
- **Wishlist store** (`Wishlist`): add, remove, toggle and clear. Entries are
  keyed by product id.
- **Search store** (`Search`): the product match rule and the two-step search
  (start, then completion after a delay). Also clearing, and the suggestions
  drop-down. The suggestions are a `Set` in insertion order, cut to five.
- **Search-results panel** (`SearchResults`): the on-sale and new-arrival
  filters, the four sort orders, the status line and the footer count. Also
  its cart and wishlist buttons.
- **Product card** (`ProductCard`): the home and category pages share the same
  size-selection map, "Add to Cart" handler and button label.
- **Home page** (`IndexPage`): the category drop-down and the category
  remembered from a menu click.
- **Category page** (`CategoryPage`): the route parameter turned into a
  heading, the products whose category slug equals the parameter, and the
  empty-page message.
- **Navigation bar** (`Navigation`): where a menu click leads, what it forwards
  to the page, the menu items, and the search form.
- **Filter panel** (`ProductFilter`): toggling a chip, clearing everything and
  the active-filter count.
- **Demo cart drawer** (`DemoCart`): its own two seeded items. Also subtotal,
  shipping, tax, total, the ± buttons and the free-shipping hint.
- **Wishlist drawer** (`WishlistPanel`): "move to cart", the "In Cart" label,
  the strike-through price and the "Clear All" button.
- **Brands gallery** (`Gallery`): the 190 image paths.
- **Catalog** (`Catalog`, `CatalogFacts`): the 43 products, as literal data.
  `CatalogFacts` holds what the rest of the site relies on, plus concrete
  search, suggestion and listing results over it.

Supporting modules:

- `Base`: `Option`, and JavaScript truthiness of optional strings and numbers.
- `Text`: lower-casing, trimming, `includes`, `startsWith`, `split`, `join`,
  `replace` and decimal rendering.
- `Seqs`: `filter`, sub-sequences, `Set`-style de-duplication and `slice`.
- `Sorting`: a stable insertion sort. `Array.prototype.sort` is stable.
- `Slugs`: the `lower-case, spaces to dashes` slug.

JavaScript truthiness is modelled explicitly. `if (size)` holds for a present,
non-empty string. `originalPrice && …` holds for a present, non-zero number.
React state updates are modelled as functions from the old state to the new.

## Model

| member | source | states |
|---|---|---|
| Cart.FindKey | src/contexts/CartContext.tsx:60-62 | `findIndex` on (id, size): -1 when no line has the key, otherwise the first line that has it |
| Cart.UniqueKey | src/contexts/CartContext.tsx:60-62 | in a cart whose keys are pairwise distinct, any line carrying the key is the one `findIndex` returns |
| Cart.GetItemQuantity | src/contexts/CartContext.tsx:148-151 | in a well-formed cart the result is the quantity of the line with the key, never negative, and zero exactly when no line has the key |
| Cart.AddToCart | src/contexts/CartContext.tsx:58-97 | adding raises that key's quantity by one and leaves every other key's quantity unchanged; an existing line is bumped in place; a new key is appended with quantity 1; distinct keys are preserved |
| Cart.RemoveFromCart | src/contexts/CartContext.tsx:99-113 | keeps exactly the lines without the key, in order; a missing key leaves the cart unchanged; distinct keys are preserved |
| Cart.UpdateQuantity | src/contexts/CartContext.tsx:115-131 | a quantity ≤ 0 is a removal; otherwise the same lines in the same order, only the keyed line's quantity is replaced, and the key reads back that quantity if it was present (0 if not) |
| Cart.IsInCartQuantity | src/contexts/CartContext.tsx:141-146 | with a truthy size, `isInCart` holds iff that (id, size) has a positive quantity; with no size, iff some size of the id has one |
| Cart.AddThenInCart | src/contexts/CartContext.tsx:58-97 | right after adding a product with a size, `isInCart` reports it for that size |
| Cart.CartCountAdd | src/contexts/CartContext.tsx:51 | adding one item raises the cart count by exactly one |
| Cart.CartCountRemove | src/contexts/CartContext.tsx:99-113 | removing a key lowers the cart count by exactly that key's quantity |
| Cart.CartCount | src/contexts/CartContext.tsx:51 | in a well-formed cart the count is at least the number of lines, since each line holds at least one item |
| Cart.UnitPrice | src/contexts/CartContext.tsx:54 | the price charged per item is the shelf price or the original price, never below the shelf price and never below a truthy original price |
| Cart.TotalPriceVersusShelf | src/contexts/CartContext.tsx:53-56 | the total is never below the sum of shelf prices, and equals it when no line is discounted |
| Cart.TotalPriceAdd | src/contexts/CartContext.tsx:53-97 | adding one item raises the total by exactly one unit price: the existing line's, or the new item's |
| Cart.TotalPriceUpdate | src/contexts/CartContext.tsx:53-56 | changing one line's quantity from q0 to q changes the total by its unit price times q - q0 |
| Cart.ClearCartEmpties | src/contexts/CartContext.tsx:133-139 | after clearing, the count and total are zero and no key is in the cart or has a quantity |
| Cart.AddRepeatedlyFresh | src/contexts/CartContext.tsx:58-97 | adding a new key n times gives a single appended line of quantity n |
| Wishlist.AddToWishlist | src/contexts/WishlistContext.tsx:51-72 | a present id leaves the list unchanged; otherwise the item is appended; the id set gains the item's id; ids stay distinct |
| Wishlist.RemoveFromWishlist | src/contexts/WishlistContext.tsx:74-88 | an order-keeping sub-list whose id set loses exactly that id, one entry shorter when the id was present; a missing id changes nothing |
| Wishlist.ToggleWishlist | src/contexts/WishlistContext.tsx:90-112 | removes a present id and adds a missing one, so membership flips; ids stay distinct |
| Wishlist.ToggleTwice | src/contexts/WishlistContext.tsx:90-112 | toggling twice restores membership, and restores the very list when the item was absent |
| Wishlist.ClearWishlist | src/contexts/WishlistContext.tsx:114-120 | the cleared list is well formed and holds no id |
| Wishlist.WishlistCountIsIds | src/contexts/WishlistContext.tsx:49 | in a list with distinct ids, the count is the number of distinct wishlisted ids, and it is 0 after clearing |
| Wishlist.IsInWishlistIds | src/contexts/WishlistContext.tsx:122-124 | `isInWishlist` holds exactly for the ids in the list's id set |
| Wishlist.MoveToCart | src/contexts/WishlistContext.tsx:126-135 | the context's move-to-cart changes no list; it only reports whether the id is wishlisted |
| Search.Present | src/contexts/SearchContext.tsx:52-57 | `filter(Boolean)` keeps exactly the truthy fields, each one non-empty |
| Search.SearchableTextOrigin | src/contexts/SearchContext.tsx:52-57 | a letter of the searchable text comes, in one case or the other, from the name, category, brand or description |
| Search.QueryWords | src/contexts/SearchContext.tsx:75 | the query words are exactly the space-separated pieces longer than two characters |
| Search.SearchMatches | src/contexts/SearchContext.tsx:49-84 | the stored results are exactly the products that match the normalised query, as an order-keeping sub-list |
| Search.SearchMatchesAppend | src/contexts/SearchContext.tsx:51 | searching a concatenation gives the concatenation of the searches |
| Search.DirectMatchFound | src/contexts/SearchContext.tsx:60-72 | a product whose lower-cased name, category or brand contains the normalised query is always found |
| Search.ShortWordsIgnored | src/contexts/SearchContext.tsx:75-80 | a query with no word longer than two characters matches only through name, category or brand |
| Search.SetSearchQuery | src/contexts/SearchContext.tsx:31 | setting the query changes nothing but the query |
| Search.PerformSearch | src/contexts/SearchContext.tsx:37-48 | a blank query empties the results and lowers the searched flag, leaves the searching flag as it was, and schedules nothing; any other query sets both flags and schedules a search over exactly that query and those products |
| Search.CompleteSearch | src/contexts/SearchContext.tsx:49-96 | the completed search stores exactly the matching products and ends the searching state |
| Search.SearchRoundTrip | src/contexts/SearchContext.tsx:37-96 | starting and then completing a non-blank search stores the matches and leaves the flags at searched, not searching |
| Search.ClearSearch | src/contexts/SearchContext.tsx:98-103 | clearing empties the query and the results and resets both flags |
| Search.ProductCandidatesOffered | src/contexts/SearchContext.tsx:112-126 | one product offers exactly those of its name, category and brand whose lower-case form starts with the query, one entry each, the name first and the brand last |
| Search.Candidates | src/contexts/SearchContext.tsx:111-127 | the collected values are exactly the names, categories and brands whose lower-case form starts with the query |
| Search.GetSearchSuggestions | src/contexts/SearchContext.tsx:105-129 | nothing for a blank or one-character query; otherwise at most five distinct values, each a real candidate |
| Search.SuggestionsFirstEncounter | src/contexts/SearchContext.tsx:109-128 | the suggestions follow first-encounter order, no candidate met before a suggestion is passed over, and with fewer than five every candidate is offered |
| Search.SuggestionsSettle | src/contexts/SearchContext.tsx:109-128 | once the leading products give five distinct candidates, later products do not change the suggestions |
| Search.SuggestionsFromPrefix | src/contexts/SearchContext.tsx:109-128 | when the first k products give five distinct candidates, those five are the suggestions for the whole catalog |
| SearchResults.ApplyFilter | src/components/SearchResults.tsx:55-62 | `all` keeps every result; otherwise exactly the results the option admits, in stored order |
| SearchResults.SortOrderTotal | src/components/SearchResults.tsx:64-76 | every sort option's comparison is a total preorder, and so is the name order for any total collation |
| SearchResults.ApplySort | src/components/SearchResults.tsx:64-76 | sorting permutes the results, and relevance keeps their order |
| SearchResults.Processed | src/components/SearchResults.tsx:54-77 | the shown list is a permutation of the filtered results; with `all` and relevance it is the stored list |
| SearchResults.ProcessedSorted | src/components/SearchResults.tsx:64-76 | the shown list is sorted by the chosen option's order |
| SearchResults.ProcessedStable | src/components/SearchResults.tsx:64-76 | results of equal rank keep their relative order (stable sort) |
| SearchResults.StatusText | src/components/SearchResults.tsx:104 | "Searching..." while searching, "Enter a search term" before any search, otherwise the count followed by the result noun |
| SearchResults.StatusTextCount | src/components/SearchResults.tsx:104 | the status line's leading digits read back as the count, and the noun is plural exactly when the count is not 1 |
| SearchResults.ShowingAtMostStored | src/components/SearchResults.tsx:269 | the footer's shown count never exceeds the stored count, and equals it under `all` |
| SearchResults.AddFromResults | src/components/SearchResults.tsx:28-38 | the panel's add button adds one size-less item, which then reads as in the cart; every other key keeps its quantity, a fresh key appends the product's snapshot with quantity 1, and the total rises by exactly one unit price |
| SearchResults.ToggleFromResults | src/components/SearchResults.tsx:40-51 | the panel's heart flips the product's wishlist membership: the id set loses or gains exactly that id, a present entry is dropped from an order-keeping sub-list, and an absent product is appended as its snapshot, rating included |
| ProductCard.HandleSizeSelect | src/pages/ProductCategoryPage.tsx:33-38 | records the size for that product and keeps every other product's choice |
| ProductCard.HandleAddToCart | src/pages/ProductCategoryPage.tsx:40-48 | without a chosen size nothing changes; with one, that (id, size) gains one item and every other key is unchanged: an existing line is bumped in place, otherwise the product's snapshot is appended with quantity 1, and the total rises by exactly one unit price |
| ProductCard.Label | src/pages/ProductCategoryPage.tsx:139-168 | the button asks for a size exactly when none is chosen |
| ProductCard.LabelAgreesWithDisabled | src/pages/Index.tsx:203-232 | the button is disabled exactly when its label is "Select Size" or "Out of Stock", and reads "In Cart" exactly when enabled with the key in the cart |
| ProductCard.AddedCardReadsInCart | src/pages/Index.tsx:55-63 | after an enabled add, the same card's button reads "In Cart" |
| ProductCard.EnabledForUnavailableSize | src/pages/Index.tsx:203-232 | for any non-empty picked size the product does not list (and a non-empty size list), the button is enabled and the add goes through under that size |
| IndexPage.HandleFilterChange | src/pages/Index.tsx:34-46 | `all` shows the catalog; `Brands` shows exactly the branded products; any other value shows exactly that category; order is kept |
| IndexPage.FilterChangeAppend | src/pages/Index.tsx:34-46 | the listing of a concatenation is the concatenation of the listings |
| IndexPage.HandleNavCategoryClick | src/pages/Index.tsx:83-91 | the remembered category is the item if truthy, else the subcategory if truthy, else a non-empty category, else unchanged |
| IndexPage.NavClickIdempotent | src/pages/Index.tsx:83-91 | repeating a click changes nothing more, and any click naming something ignores the previous choice |
| CategoryPage.TitleCase | src/pages/ProductCategoryPage.tsx:28 | every letter at a word start is upper-cased, and every other character is kept |
| CategoryPage.DisplayCategory | src/pages/ProductCategoryPage.tsx:28 | no parameter gives an empty heading; otherwise the dashes become spaces, each word-initial character is upper-cased, and every other character is kept |
| CategoryPage.DisplayOfSlug | src/pages/ProductCategoryPage.tsx:28-31 | the heading for a name's slug is that name up to letter case |
| CategoryPage.PageProducts | src/pages/ProductCategoryPage.tsx:29-31 | exactly the products whose category slug equals the parameter, in catalog order |
| CategoryPage.NoProductsIff | src/pages/ProductCategoryPage.tsx:173-175 | "No products found" shows exactly when no product's category slug equals the parameter |
| Slugs.Slug | src/components/MainNavigation.tsx:65 | same length, no spaces or capitals, letters lower-cased, and each space becomes a dash |
| Slugs.SlugIdempotent | src/components/MainNavigation.tsx:65 | slugging a slug changes nothing |
| Slugs.SlugIgnoresCase | src/pages/ProductCategoryPage.tsx:30 | lower-casing first gives the same slug |
| Navigation.HandleCategoryClick | src/components/MainNavigation.tsx:51-71 | home, gallery and sale navigate to their page and forward nothing; otherwise a truthy item navigates to `/products/<slug>`, and the click is forwarded unchanged exactly when the page listens |
| Navigation.ProductPath | src/components/MainNavigation.tsx:65 | the path is `/products/` followed by a lower-case, space-free slug of the item |
| Navigation.ItemClickRoute | src/components/MainNavigation.tsx:64-67 | the path an item click navigates to carries the item's slug as the category page's parameter |
| Navigation.SubcategoryClickHasNoPath | src/components/MainNavigation.tsx:64-67 | a click with a subcategory but no item navigates nowhere |
| Navigation.HandleSearch | src/components/MainNavigation.tsx:46-49 | submitting the search form changes no store; it only produces the logged line |
| ProductFilter.ToggleSelection | src/components/ProductFilter.tsx:31-37 | a selected chip is removed, keeping the others in order; an unselected one is appended; no other value changes membership |
| ProductFilter.ToggleTwice | src/components/ProductFilter.tsx:31-37 | toggling twice restores membership, and restores the list exactly when the chip was unselected |
| ProductFilter.ToggleKeepsDistinct | src/components/ProductFilter.tsx:31-37 | toggling keeps selections duplicate-free and changes their number by exactly one |
| ProductFilter.ClearAllFilters | src/components/ProductFilter.tsx:39-44 | clearing empties the three chip lists and restores the price range to 0-200 |
| ProductFilter.ActiveFiltersCount | src/components/ProductFilter.tsx:46 | the badge count is zero exactly when no chip is selected; the three toggle lemmas below tie it to each list's length |
| ProductFilter.CountAfterClearAndToggle | src/components/ProductFilter.tsx:31-46 | after clearing the count is 0, and one size toggle moves it by exactly one |
| ProductFilter.CountAfterBrandToggle | src/components/ProductFilter.tsx:31-46 | one brand toggle on a list without repeats moves the count by exactly one, down when the brand was checked |
| ProductFilter.CountAfterColorToggle | src/components/ProductFilter.tsx:31-46 | one colour toggle on a list without repeats moves the count by exactly one, down when the colour was checked |
| DemoCart.RemoveItem | src/components/ShoppingCart.tsx:58-60 | keeps exactly the items with another id, in order |
| DemoCart.UpdateQuantity | src/components/ShoppingCart.tsx:46-56 | quantity 0 removes the id; any other quantity replaces that id's quantity and keeps everything else |
| DemoCart.Shipping | src/components/ShoppingCart.tsx:63 | shipping is free exactly above 75, and 9.99 otherwise |
| DemoCart.Tax | src/components/ShoppingCart.tsx:64 | tax on a non-negative subtotal lies between 0 and the subtotal |
| DemoCart.Total | src/components/ShoppingCart.tsx:65 | the total is subtotal × 1.08, plus 9.99 at or below 75; never below the subtotal |
| DemoCart.InitialShipsFree | src/components/ShoppingCart.tsx:25-44 | the two seeded items total 219.97, so they ship free |
| DemoCart.FreeShippingHint | src/components/ShoppingCart.tsx:157-199 | the hint shows exactly when the cart is non-empty and shipping is charged, and names the non-negative amount that brings the subtotal to 75 |
| DemoCart.ButtonsKeepValid | src/components/ShoppingCart.tsx:123-134 | minus on quantity 1 removes the item, otherwise it steps down by one; plus steps up by one; quantities stay positive |
| DemoCart.SubtotalUpdate | src/components/ShoppingCart.tsx:62 | changing one item's quantity changes the subtotal by its price times the difference |
| DemoCart.IncrementAddsPrice | src/components/ShoppingCart.tsx:134 | the plus button raises the subtotal by exactly that item's price |
| WishlistPanel.HandleMoveToCart | src/components/Wishlist.tsx:25-35 | moving adds one size-less item to the cart, leaves every other key alone, and leaves the wishlist unchanged; a fresh key appends the entry's snapshot with quantity 1, and the total rises by exactly one unit price |
| WishlistPanel.ShowsInCartIff | src/components/Wishlist.tsx:133-140 | "In Cart" shows exactly when some line, of any size, holds the item |
| WishlistPanel.MovedShowsInCart | src/components/Wishlist.tsx:25-35 | after moving, the item's label reads "In Cart" |
| WishlistPanel.StrikeThroughIsCharged | src/components/Wishlist.tsx:121 | a struck-through original price is exactly the price the cart would charge; without it the cart charges the shelf price |
| WishlistPanel.ClearAllShownIff | src/components/Wishlist.tsx:57-67 | "Clear All" shows exactly when the wishlist is non-empty, and never after clearing |
| Gallery.GalleryImages | src/pages/Brands.tsx:9-14 | 190 paths, slot by slot |
| Gallery.RemappedIsNumbered | src/pages/Brands.tsx:5-7 | the remap list holds 52 entries, `g (14).JPG` to `g (65).JPG` in order |
| Gallery.SlotMapping | src/pages/Brands.tsx:9-14 | slot 12 is `one.JPG`; slots 13-64 are `g (i+1).JPG`; slot 189 is `g (190).jpeg`; every other slot is `g (i+1).jpg` |
| Gallery.RemapOnlyChangesCase | src/pages/Brands.tsx:9-14 | a remapped slot differs from the default path only in the extension's letter case |
| CatalogFacts.CatalogShape | src/pages/productsData.ts:2-484 | 43 products with strictly increasing ids; each has a listed category, no brand, original price or description, every size available, a positive price and a rating in 0-5 |
| CatalogFacts.BucketHatsBlock | src/pages/productsData.ts:3-80 | seven bucket hats, ids 1001-1007 |
| CatalogFacts.ShortsBlock | src/pages/productsData.ts:250-426 | sixteen shorts, ids 6001-6016 |
| CatalogFacts.CatalogCategories | src/pages/productsData.ts:2-484 | the catalog's categories are exactly the home drop-down's category values, each carried by some product |
| CatalogFacts.BrandsListingEmpty | src/pages/Index.tsx:39-41 | no catalog product has a brand, so the `Brands` choice lists nothing |
| CatalogFacts.OnSaleEmpty | src/components/SearchResults.tsx:58-59 | no catalog product has an original price, so "On Sale" empties any result list drawn from the catalog |
| CatalogFacts.SearchBucket | src/contexts/SearchContext.tsx:49-84 | searching the catalog for `bucket` stores exactly the seven bucket hats, in order |
| CatalogFacts.SuggestionsBuc | src/contexts/SearchContext.tsx:105-129 | typing `buc` suggests Bucket Hat 1, Bucket Hats, Bucket Hat 2, Bucket Hat 3, Bucket Hat 4 |
| CatalogFacts.NavItemListsCategory | src/pages/ProductCategoryPage.tsx:29-31 | a menu category's page lists the same non-empty set of products as choosing it in the home drop-down |
| CatalogFacts.PhotoshootPageEmpty | src/components/MainNavigation.tsx:36 | the "Nkoyoyo Photohoot" menu item leads to the "No products found" page |
| CatalogFacts.FootwearPagesEmpty | src/components/MainNavigation.tsx:40 | every footwear menu item leads to the "No products found" page |
| Seqs.Dedup | src/contexts/SearchContext.tsx:109 | a `Set` of the values: distinct, and holding exactly the values of the list |
| Seqs.TakeDedupSettled | src/contexts/SearchContext.tsx:128 | once n distinct values are collected, later values do not change the first n |
| Sorting.SortBySorted | src/components/SearchResults.tsx:64-76 | the sort's output is ordered under any total preorder |
| Sorting.SortByStable | src/components/SearchResults.tsx:64-76 | the sort keeps elements of equal rank in their input order |
| Text.JoinSplit | src/contexts/SearchContext.tsx:75 | joining the pieces of a split with the separator gives back the string |
| Text.NatToStringRoundTrip | src/components/SearchResults.tsx:104 | the decimal rendering of a count reads back as that count |

## Left out

- **Toasts.** Toast notifications are not modelled; they change no state.
- **Storage.** `localStorage` loading and saving is not modelled.
- **Timer.** The search's 300 ms `setTimeout` is a two-step state change
  (`PerformSearch` returns the pending search; `CompleteSearch` applies it).
  Overlapping timers and their interleavings are not modelled.
- **In-place mutation.** `addToCart` bumps the quantity on a copied array
  whose line objects are shared with the previous state. The model returns a
  fresh list and does not model that aliasing.
- **Collation.** `localeCompare` is not modelled. The name sort takes the
  collation as a parameter, and its properties hold for any total one.
- **Text.** Lower-casing and trimming cover ASCII letters, spaces, tabs and
  line breaks only. Unicode case mapping and whitespace are not modelled.
- **Numbers.** Prices are exact reals. IEEE rounding and `toFixed` formatting
  are not modelled.
- **Navigation and rendering.** Router navigation is a returned path. Modals,
  authentication, the mobile menu, images and styling are not modelled. The
  `supabase` client, `Sale.tsx`, `App.tsx` and `SizeSelector.tsx` are not part
  of this model.
- **Filter panel.** The price slider's intermediate values and the "Apply"
  button, which only closes the panel, are not modelled. The panel's state is
  not connected to any listing in the source either.
- **Page wishlist buttons.** The pages' `handleToggleWishlist` wrappers only
  build a record and call `toggleWishlist`. They are covered by
  `Wishlist.ToggleWishlist` and `SearchResults.ToggleFromResults`.
- **Cart total.** `totalPrice` charges the original price when it is higher
  than the shelf price. This is kept as written (`Cart.UnitPrice`).
- CategoryPage.PageProducts: requires every product to have a category. The
  source calls `toLowerCase()` on each product's category and would throw on
  a product without one.
- Cart.CartCount: states only a lower bound. Its additive behaviour is stated
  by `Cart.CartCountAdd`, `Cart.CartCountRemove` and `Cart.CartCountUpdate`.
- Search.GetSearchSuggestions: its own contract states the empty result for a
  short or blank query, the bound of five, distinctness and that each value is
  a candidate. Which five values, in which order, is stated by
  `Search.SuggestionsFirstEncounter`.
