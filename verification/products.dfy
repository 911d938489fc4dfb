/** The records the storefront passes around: catalog products (every `?:`
    field of the search engine's `SearchResult` is optional here too), the
    display snapshot the cart copies at add time, and the wishlist entry. */
module Products {
  import opened Base

  /** A product as the pages, the search engine and the filters see it. */
  datatype Product = Product(
    id: int,
    name: string,
    price: real,
    image: string,
    category: Option<string>,
    originalPrice: Option<real>,
    badge: Option<string>,
    rating: Option<real>,
    brand: Option<string>,
    description: Option<string>,
    sizes: Option<seq<string>>,
    availableSizes: Option<seq<string>>)
  {
    /** The fields every add-to-cart and wishlist caller copies. */
    function Info(): ItemInfo {
      ItemInfo(id, name, price, image, category, originalPrice, badge)
    }
  }

  /** The display snapshot a cart line keeps: id, name, price, image,
      category, original price and badge. */
  datatype ItemInfo = ItemInfo(
    id: int,
    name: string,
    price: real,
    image: string,
    category: Option<string>,
    originalPrice: Option<real>,
    badge: Option<string>)

  /** A wishlist entry: the display snapshot plus the rating. */
  datatype WishlistItem = WishlistItem(info: ItemInfo, rating: Option<real>)

  /** The snapshot the product pages hand to `toggleWishlist`. */
  function WishlistSnapshot(p: Product): WishlistItem {
    WishlistItem(p.Info(), p.rating)
  }

  /** `originalPrice && originalPrice > price`: a defined, non-zero original
      price above the current one. */
  predicate Discounted(originalPrice: Option<real>, price: real) {
    TruthyNumber(originalPrice) && originalPrice.value > price
  }
}
