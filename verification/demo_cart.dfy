/** The cart side panel's own list. It does not read the cart store: it
    starts from two fixed items, is keyed by id alone, and prices its
    contents with a flat shipping rule and a fixed tax rate. */
module DemoCart {
  import opened Base
  import Seqs

  datatype DemoItem = DemoItem(
    id: int,
    name: string,
    price: real,
    quantity: int,
    image: string,
    size: string,
    color: string)

  /** The panel's starting contents. */
  const InitialItems: seq<DemoItem> := [
    DemoItem(1, "Manchester United Home Jersey 2024", 89.99, 1,
             "https://images.unsplash.com/photo-1581091226825-a6a2a5aee158?w=100&h=100&fit=crop", "L", "Red"),
    DemoItem(2, "Nike Training Set", 64.99, 2,
             "https://images.unsplash.com/photo-1531297484001-80022131f5a1?w=100&h=100&fit=crop", "M", "Black")
  ]

  function OtherId(id: int): DemoItem -> bool {
    (item: DemoItem) => item.id != id
  }

  /** `removeItem`: drop every item with the id, keeping the others in
      order. */
  function RemoveItem(items: seq<DemoItem>, id: int): (r: seq<DemoItem>)
    ensures forall i :: 0 <= i < |r| ==> r[i].id != id && r[i] in items
    ensures forall i :: 0 <= i < |items| && items[i].id != id ==> items[i] in r
    ensures Seqs.IsSubseq(r, items)
    ensures (forall i :: 0 <= i < |items| ==> items[i].id != id) ==> r == items
  {
    Seqs.FilterIsSubseq(items, OtherId(id));
    if forall i :: 0 <= i < |items| ==> items[i].id != id then
      Seqs.FilterKeepsAll(items, OtherId(id));
      Seqs.Filter(items, OtherId(id))
    else
      Seqs.Filter(items, OtherId(id))
  }

  /** `updateQuantity`: zero removes every item with the id; any other
      number, negative ones included, becomes the quantity of every item
      with the id. */
  function UpdateQuantity(items: seq<DemoItem>, id: int, quantity: int): (r: seq<DemoItem>)
    ensures quantity == 0 ==> r == RemoveItem(items, id)
    ensures quantity != 0 ==>
              && |r| == |items|
              && (forall i :: 0 <= i < |items| && items[i].id == id ==> r[i] == items[i].(quantity := quantity))
              && (forall i :: 0 <= i < |items| && items[i].id != id ==> r[i] == items[i])
  {
    if quantity == 0 then RemoveItem(items, id)
    else seq(|items|, i requires 0 <= i < |items| =>
               if items[i].id == id then items[i].(quantity := quantity) else items[i])
  }

  /** `subtotal`: price times quantity, summed from the first item. */
  function Subtotal(items: seq<DemoItem>): real
    decreases |items|
  {
    if |items| == 0 then 0.0
    else Subtotal(items[..|items| - 1]) + items[|items| - 1].price * items[|items| - 1].quantity as real
  }

  /** The subtotal above which shipping is free. */
  const FreeShippingThreshold: real := 75.0
  const FlatShipping: real := 9.99
  const TaxRate: real := 0.08

  /** `shipping`: free strictly above the threshold, flat otherwise. */
  function Shipping(subtotal: real): (r: real)
    ensures r == 0.0 <==> subtotal > 75.0
    ensures r != 0.0 ==> r == 9.99
  {
    if subtotal > FreeShippingThreshold then 0.0 else FlatShipping
  }

  /** `tax`. */
  function Tax(subtotal: real): (r: real)
    ensures subtotal >= 0.0 ==> 0.0 <= r <= subtotal
  {
    subtotal * TaxRate
  }

  /** `total`. */
  function Total(items: seq<DemoItem>): (r: real)
    ensures Subtotal(items) >= 0.0 ==> r >= Subtotal(items)
    ensures Subtotal(items) > 75.0 ==> r == Subtotal(items) * 1.08
    ensures Subtotal(items) <= 75.0 ==> r == Subtotal(items) * 1.08 + 9.99
  {
    Subtotal(items) + Shipping(Subtotal(items)) + Tax(Subtotal(items))
  }

  /** The starting cart costs 219.97 before tax and ships free. */
  lemma InitialShipsFree()
    ensures Subtotal(InitialItems) == 219.97
    ensures Shipping(Subtotal(InitialItems)) == 0.0
  {
    assert InitialItems[..1] == [InitialItems[0]];
    assert InitialItems[..0] == [];
  }

  /** The "add more for free shipping" hint: part of the summary block,
      which an empty cart does not render, and shown there only while
      shipping is charged. */
  function FreeShippingHint(items: seq<DemoItem>): (r: Option<real>)
    ensures r.Some? <==> |items| > 0 && Subtotal(items) <= 75.0
    ensures r.Some? ==> r.value >= 0.0 && Subtotal(items) + r.value == 75.0
  {
    if |items| > 0 && Shipping(Subtotal(items)) > 0.0 then Some(FreeShippingThreshold - Subtotal(items)) else None
  }

  /** Ids are unique and every quantity is positive: true of the starting
      cart and kept by the panel's buttons. */
  predicate Valid(items: seq<DemoItem>) {
    && (forall i, j :: 0 <= i < j < |items| ==> items[i].id != items[j].id)
    && (forall i :: 0 <= i < |items| ==> items[i].quantity >= 1)
  }

  /** The minus button of the item at `k`. */
  function Decrement(items: seq<DemoItem>, k: int): seq<DemoItem>
    requires 0 <= k < |items|
  {
    UpdateQuantity(items, items[k].id, items[k].quantity - 1)
  }

  /** The plus button of the item at `k`. */
  function Increment(items: seq<DemoItem>, k: int): seq<DemoItem>
    requires 0 <= k < |items|
  {
    UpdateQuantity(items, items[k].id, items[k].quantity + 1)
  }

  /** The buttons never leave a zero or negative quantity behind: minus on
      a single unit removes the item, and otherwise the quantity moves by
      one. */
  lemma ButtonsKeepValid(items: seq<DemoItem>, k: int)
    requires Valid(items) && 0 <= k < |items|
    ensures Valid(Decrement(items, k)) && Valid(Increment(items, k))
    ensures items[k].quantity == 1 ==> Decrement(items, k) == RemoveItem(items, items[k].id)
    ensures items[k].quantity > 1 ==> Decrement(items, k) == items[k := items[k].(quantity := items[k].quantity - 1)]
    ensures Increment(items, k) == items[k := items[k].(quantity := items[k].quantity + 1)]
  {
    var id := items[k].id;
    Seqs.FilterPairwise(items, OtherId(id), (a: DemoItem, b: DemoItem) => a.id != b.id);
    assert forall i :: 0 <= i < |items| && items[i].id == id ==> i == k;
  }

  lemma {:induction false} SubtotalUpdate(items: seq<DemoItem>, k: int, q: int)
    requires 0 <= k < |items|
    ensures Subtotal(items[k := items[k].(quantity := q)]) ==
              Subtotal(items) + items[k].price * (q - items[k].quantity) as real
    decreases |items|
  {
    var r := items[k := items[k].(quantity := q)];
    var n := |items|;
    if k < n - 1 {
      assert r[..n - 1] == items[..n - 1][k := items[k].(quantity := q)];
      SubtotalUpdate(items[..n - 1], k, q);
    } else {
      assert r[..n - 1] == items[..n - 1];
      ScaleDifference(items[k].price, q as real, items[k].quantity as real);
    }
  }

  /** The plus button raises the subtotal by the item's price. */
  lemma IncrementAddsPrice(items: seq<DemoItem>, k: int)
    requires Valid(items) && 0 <= k < |items|
    ensures Subtotal(Increment(items, k)) == Subtotal(items) + items[k].price
  {
    ButtonsKeepValid(items, k);
    BumpAddsPrice(items, k);
  }

  lemma BumpAddsPrice(items: seq<DemoItem>, k: int)
    requires 0 <= k < |items|
    ensures Subtotal(items[k := items[k].(quantity := items[k].quantity + 1)]) == Subtotal(items) + items[k].price
  {
    SubtotalUpdate(items, k, items[k].quantity + 1);
    UnitStep(items[k].price, items[k].quantity);
  }

  lemma UnitStep(p: real, q: int)
    ensures p * (q + 1 - q) as real == p
  {
    assert (q + 1 - q) as real == 1.0;
  }
}
