/** The wishlist side panel: its move-to-cart button, the "In Cart" caption,
    the struck-through original price, and the "Clear All" button. */
module WishlistPanel {
  import opened Base
  import opened Products
  import Cart
  import Wishlist

  /** `handleMoveToCart`: add the entry's snapshot to the cart with no size;
      the wishlist keeps the entry. */
  function HandleMoveToCart(lines: seq<Cart.CartLine>, items: seq<WishlistItem>, item: WishlistItem)
    : (r: (seq<Cart.CartLine>, seq<WishlistItem>))
    ensures r.1 == items
    ensures Cart.GetItemQuantity(r.0, item.info.id, None) == Cart.GetItemQuantity(lines, item.info.id, None) + 1
    ensures forall id, s :: (id != item.info.id || s != None) ==>
              Cart.GetItemQuantity(r.0, id, s) == Cart.GetItemQuantity(lines, id, s)
    ensures !Cart.KeyPresent(lines, item.info.id, None) ==>
              && r.0 == lines + [Cart.CartLine(item.info, None, 1)]
              && Cart.TotalPrice(r.0) == Cart.TotalPrice(lines) + Cart.UnitPrice(item.info)
    ensures Cart.KeyPresent(lines, item.info.id, None) ==>
              Cart.TotalPrice(r.0) == Cart.TotalPrice(lines)
                + Cart.UnitPrice(lines[Cart.FindKey(lines, item.info.id, None)].info)
    ensures Cart.Valid(lines) ==> Cart.Valid(r.0)
  {
    Cart.TotalPriceAdd(lines, item.info, None);
    (Cart.AddToCart(lines, item.info, None), items)
  }

  /** The caption reads "In Cart" when the cart holds the product in any
      size, including none. */
  predicate ShowsInCart(lines: seq<Cart.CartLine>, id: int) {
    Cart.IsInCart(lines, id, None)
  }

  /** The caption depends on the product alone: some line carries its id,
      equivalently some size of it has a positive quantity. */
  lemma ShowsInCartIff(lines: seq<Cart.CartLine>, id: int)
    requires Cart.Valid(lines)
    ensures ShowsInCart(lines, id) <==> exists i :: 0 <= i < |lines| && lines[i].info.id == id
    ensures ShowsInCart(lines, id) <==> exists s :: Cart.GetItemQuantity(lines, id, s) > 0
  {
    Cart.IsInCartQuantity(lines, id, None);
  }

  /** After moving an entry, its caption reads "In Cart". */
  lemma MovedShowsInCart(lines: seq<Cart.CartLine>, items: seq<WishlistItem>, item: WishlistItem)
    ensures ShowsInCart(HandleMoveToCart(lines, items, item).0, item.info.id)
  {
    Cart.AddThenInCart(lines, item.info, None);
  }

  /** The original price is shown struck through when it is truthy and
      above the price. */
  predicate ShowsStrikeThrough(item: WishlistItem) {
    Discounted(item.info.originalPrice, item.info.price)
  }

  /** The cart's total prices a line at the struck-through figure whenever
      the panel strikes one, and at the shown price otherwise. */
  lemma StrikeThroughIsCharged(item: WishlistItem)
    ensures ShowsStrikeThrough(item) ==>
              && item.info.originalPrice.Some?
              && Cart.UnitPrice(item.info) == item.info.originalPrice.value > item.info.price
    ensures !ShowsStrikeThrough(item) ==> Cart.UnitPrice(item.info) == item.info.price
  {
  }

  /** "Clear All" is offered while the list has entries. */
  predicate ShowsClearAll(items: seq<WishlistItem>) {
    |items| > 0
  }

  /** "Clear All" is offered exactly when the count is positive, and is gone
      after it is used. */
  lemma ClearAllShownIff(items: seq<WishlistItem>)
    ensures ShowsClearAll(items) <==> Wishlist.WishlistCount(items) > 0
    ensures !ShowsClearAll(Wishlist.ClearWishlist())
  {
  }
}
