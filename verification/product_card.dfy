/** The product card shared by the home page and the category page: the
    per-product size choice, the guarded add-to-cart, and the add button's
    disabled state and label. The two pages hold the same code. */
module ProductCard {
  import opened Base
  import opened Products
  import Cart

  /** `selectedSizes`: the size picked for each product id. */
  type Selections = map<int, string>

  /** `selectedSizes[id]`, `undefined` when nothing was picked. */
  function Selected(sel: Selections, id: int): Option<string> {
    if id in sel then Some(sel[id]) else None
  }

  /** `handleSizeSelect`: record the size for one product and keep every
      other product's choice. */
  function HandleSizeSelect(sel: Selections, id: int, size: string): (r: Selections)
    ensures Selected(r, id) == Some(size)
    ensures forall other :: other != id ==> Selected(r, other) == Selected(sel, other)
    ensures r.Keys == sel.Keys + {id}
  {
    sel[id := size]
  }

  /** `handleAddToCart`: nothing without a (non-empty) selected size;
      otherwise add the product under that size. */
  function HandleAddToCart(lines: seq<Cart.CartLine>, sel: Selections, p: Product): (r: seq<Cart.CartLine>)
    ensures !TruthyString(Selected(sel, p.id)) ==> r == lines
    ensures TruthyString(Selected(sel, p.id)) ==>
              && Cart.GetItemQuantity(r, p.id, Selected(sel, p.id))
                   == Cart.GetItemQuantity(lines, p.id, Selected(sel, p.id)) + 1
              && (forall id, s :: (id != p.id || s != Selected(sel, p.id)) ==>
                    Cart.GetItemQuantity(r, id, s) == Cart.GetItemQuantity(lines, id, s))
    ensures TruthyString(Selected(sel, p.id)) && !Cart.KeyPresent(lines, p.id, Selected(sel, p.id)) ==>
              && r == lines + [Cart.CartLine(p.Info(), Selected(sel, p.id), 1)]
              && Cart.TotalPrice(r) == Cart.TotalPrice(lines) + Cart.UnitPrice(p.Info())
    ensures TruthyString(Selected(sel, p.id)) && Cart.KeyPresent(lines, p.id, Selected(sel, p.id)) ==>
              var k := Cart.FindKey(lines, p.id, Selected(sel, p.id));
              && r == lines[k := lines[k].(quantity := lines[k].quantity + 1)]
              && Cart.TotalPrice(r) == Cart.TotalPrice(lines) + Cart.UnitPrice(lines[k].info)
    ensures Cart.Valid(lines) ==> Cart.Valid(r)
  {
    var size := Selected(sel, p.id);
    if !TruthyString(size) then lines
    else
      Cart.TotalPriceAdd(lines, p.Info(), size);
      Cart.AddToCart(lines, p.Info(), size)
  }

  /** The add button is disabled when no size is picked or the product
      lists no available size at all; whether the picked size is one of the
      available ones is not consulted. */
  predicate AddDisabled(sel: Selections, p: Product) {
    !TruthyString(Selected(sel, p.id)) || (p.availableSizes.Some? && |p.availableSizes.value| == 0)
  }

  datatype ButtonLabel = SelectSize | OutOfStock | InCart | AddToCart

  /** The add button's caption. */
  function Label(lines: seq<Cart.CartLine>, sel: Selections, p: Product): (r: ButtonLabel)
    ensures r == SelectSize <==> !TruthyString(Selected(sel, p.id))
  {
    if !TruthyString(Selected(sel, p.id)) then SelectSize
    else if p.availableSizes.Some? && |p.availableSizes.value| == 0 then OutOfStock
    else if Cart.IsInCart(lines, p.id, Selected(sel, p.id)) then InCart
    else AddToCart
  }

  /** The caption says why the button is disabled exactly when it is, and
      "In Cart" exactly when it is enabled and the picked size's line
      exists. */
  lemma LabelAgreesWithDisabled(lines: seq<Cart.CartLine>, sel: Selections, p: Product)
    ensures Label(lines, sel, p) in {SelectSize, OutOfStock} <==> AddDisabled(sel, p)
    ensures Label(lines, sel, p) == InCart <==>
              !AddDisabled(sel, p) && Cart.KeyPresent(lines, p.id, Selected(sel, p.id))
  {
  }

  /** After an enabled add, the card reads "In Cart". */
  lemma AddedCardReadsInCart(lines: seq<Cart.CartLine>, sel: Selections, p: Product)
    requires !AddDisabled(sel, p)
    ensures Label(HandleAddToCart(lines, sel, p), sel, p) == InCart
  {
    Cart.AddThenInCart(lines, p.Info(), Selected(sel, p.id));
  }

  /** The button is enabled for any picked size the product does not offer,
      as long as it offers some size, and the add then goes through under
      that size. */
  lemma EnabledForUnavailableSize(lines: seq<Cart.CartLine>, sel: Selections, p: Product, size: string)
    requires size != ""
    requires p.availableSizes.Some? ==> |p.availableSizes.value| > 0 && size !in p.availableSizes.value
    ensures var sel' := HandleSizeSelect(sel, p.id, size);
            && !AddDisabled(sel', p)
            && Cart.GetItemQuantity(HandleAddToCart(lines, sel', p), p.id, Some(size))
                 == Cart.GetItemQuantity(lines, p.id, Some(size)) + 1
  {
  }
}
