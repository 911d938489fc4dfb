/** The cart store: lines keyed by (product id, size), each with a quantity
    and the display snapshot taken when the line was created. The size is
    optional because the search results and the wishlist panel add products
    without one. */
module Cart {
  import opened Base
  import opened Products
  import Seqs

  datatype CartLine = CartLine(info: ItemInfo, size: Option<string>, quantity: int)

  /** `item.id === productId && item.size === size`. */
  predicate HasKey(l: CartLine, id: int, size: Option<string>) {
    l.info.id == id && l.size == size
  }

  predicate KeysDiffer(a: CartLine, b: CartLine) {
    !HasKey(b, a.info.id, a.size)
  }

  /** The store's invariant: at most one line per key, every quantity at
      least 1. */
  predicate Valid(lines: seq<CartLine>) {
    && (forall i, j :: 0 <= i < j < |lines| ==> KeysDiffer(lines[i], lines[j]))
    && (forall i :: 0 <= i < |lines| ==> lines[i].quantity >= 1)
  }

  predicate KeyPresent(lines: seq<CartLine>, id: int, size: Option<string>) {
    exists i :: 0 <= i < |lines| && HasKey(lines[i], id, size)
  }

  /** `findIndex` for a key: the first matching position, or -1. */
  function FindKey(lines: seq<CartLine>, id: int, size: Option<string>): (k: int)
    ensures -1 <= k < |lines|
    ensures k >= 0 ==> HasKey(lines[k], id, size)
    ensures forall i :: 0 <= i < |lines| && (k < 0 || i < k) ==> !HasKey(lines[i], id, size)
    decreases |lines|
  {
    if |lines| == 0 then -1
    else if HasKey(lines[0], id, size) then 0
    else
      var k := FindKey(lines[1..], id, size);
      if k < 0 then -1 else k + 1
  }

  /** In a valid cart the line holding a key is the only one. */
  lemma UniqueKey(lines: seq<CartLine>, id: int, size: Option<string>, i: int)
    requires Valid(lines)
    requires 0 <= i < |lines| && HasKey(lines[i], id, size)
    ensures FindKey(lines, id, size) == i
  {
    var k := FindKey(lines, id, size);
    assert k >= 0 && k <= i;
    assert k < i ==> !KeysDiffer(lines[k], lines[i]);
  }

  /** `getItemQuantity`: the quantity of the first line with the key, or 0. */
  function GetItemQuantity(lines: seq<CartLine>, id: int, size: Option<string>): (q: int)
    ensures Valid(lines) ==> q >= 0
    ensures Valid(lines) ==> (q == 0 <==> !KeyPresent(lines, id, size))
    ensures Valid(lines) ==> forall i :: 0 <= i < |lines| && HasKey(lines[i], id, size) ==> q == lines[i].quantity
  {
    OnlyKeyLine(lines, id, size);
    var k := FindKey(lines, id, size);
    if k >= 0 then lines[k].quantity else 0
  }

  /** In a valid cart the first line with a key is the only one. */
  lemma OnlyKeyLine(lines: seq<CartLine>, id: int, size: Option<string>)
    ensures Valid(lines) ==> forall i :: 0 <= i < |lines| && HasKey(lines[i], id, size) ==> i == FindKey(lines, id, size)
  {
    if Valid(lines) {
      forall i | 0 <= i < |lines| && HasKey(lines[i], id, size) ensures i == FindKey(lines, id, size) {
        UniqueKey(lines, id, size, i);
      }
    }
  }

  /** `addToCart`: bump the quantity of the line with the key, or append a
      new line of quantity 1. */
  function AddToCart(lines: seq<CartLine>, info: ItemInfo, size: Option<string>): (r: seq<CartLine>)
    ensures GetItemQuantity(r, info.id, size) == GetItemQuantity(lines, info.id, size) + 1
    ensures forall id, s :: (id != info.id || s != size) ==>
              GetItemQuantity(r, id, s) == GetItemQuantity(lines, id, s)
    ensures KeyPresent(lines, info.id, size) ==>
              && |r| == |lines|
              && (forall i :: 0 <= i < |lines| && !HasKey(lines[i], info.id, size) ==> r[i] == lines[i])
              && (forall i :: 0 <= i < |lines| && Valid(lines) && HasKey(lines[i], info.id, size) ==>
                    r[i] == lines[i].(quantity := lines[i].quantity + 1))
    ensures KeyPresent(lines, info.id, size) ==>
              var k := FindKey(lines, info.id, size);
              r == lines[k := lines[k].(quantity := lines[k].quantity + 1)]
    ensures !KeyPresent(lines, info.id, size) ==> r == lines + [CartLine(info, size, 1)]
    ensures Valid(lines) ==> Valid(r)
  {
    var k := FindKey(lines, info.id, size);
    if k >= 0 then
      BumpFacts(lines, info, size);
      lines[k := lines[k].(quantity := lines[k].quantity + 1)]
    else
      AppendFacts(lines, info, size);
      lines + [CartLine(info, size, 1)]
  }

  /** What bumping the first line with a key does to every key's quantity
      and to the invariant. */
  lemma BumpFacts(lines: seq<CartLine>, info: ItemInfo, size: Option<string>)
    requires FindKey(lines, info.id, size) >= 0
    ensures var k := FindKey(lines, info.id, size);
            var r := lines[k := lines[k].(quantity := lines[k].quantity + 1)];
            && GetItemQuantity(r, info.id, size) == GetItemQuantity(lines, info.id, size) + 1
            && (forall id, s :: (id != info.id || s != size) ==>
                  GetItemQuantity(r, id, s) == GetItemQuantity(lines, id, s))
            && (forall i :: 0 <= i < |lines| && Valid(lines) && HasKey(lines[i], info.id, size) ==> i == k)
            && (Valid(lines) ==> Valid(r))
  {
    var k := FindKey(lines, info.id, size);
    var r := lines[k := lines[k].(quantity := lines[k].quantity + 1)];
    assert forall id, s :: (id != info.id || s != size) ==> FindKey(r, id, s) == FindKey(lines, id, s) by {
      forall id, s | id != info.id || s != size ensures FindKey(r, id, s) == FindKey(lines, id, s) {
        FindKeyFrame(lines, r, id, s);
      }
    }
    FindKeyFrame(lines, r, info.id, size);
    assert forall i :: 0 <= i < |lines| && Valid(lines) && HasKey(lines[i], info.id, size) ==> i == k by {
      forall i | 0 <= i < |lines| && Valid(lines) && HasKey(lines[i], info.id, size) ensures i == k {
        UniqueKey(lines, info.id, size, i);
      }
    }
  }

  /** What appending a new line for an absent key does to every key's
      quantity and to the invariant. */
  lemma AppendFacts(lines: seq<CartLine>, info: ItemInfo, size: Option<string>)
    requires FindKey(lines, info.id, size) < 0
    ensures var r := lines + [CartLine(info, size, 1)];
            && GetItemQuantity(r, info.id, size) == GetItemQuantity(lines, info.id, size) + 1
            && (forall id, s :: (id != info.id || s != size) ==>
                  GetItemQuantity(r, id, s) == GetItemQuantity(lines, id, s))
            && (Valid(lines) ==> Valid(r))
  {
    var r := lines + [CartLine(info, size, 1)];
    forall id, s ensures FindKey(r, id, s) == (if FindKey(lines, id, s) >= 0 then FindKey(lines, id, s)
                                               else if HasKey(r[|lines|], id, s) then |lines| else -1) {
      FindKeyAppend(lines, CartLine(info, size, 1), id, s);
    }
  }

  /** Lines with the same keys in the same places are found at the same
      position. */
  lemma {:induction false} FindKeyFrame(a: seq<CartLine>, b: seq<CartLine>, id: int, size: Option<string>)
    requires |a| == |b|
    requires forall i :: 0 <= i < |a| ==> a[i].info == b[i].info && a[i].size == b[i].size
    ensures FindKey(a, id, size) == FindKey(b, id, size)
    decreases |a|
  {
    if |a| > 0 {
      FindKeyFrame(a[1..], b[1..], id, size);
    }
  }

  lemma {:induction false} FindKeyAppend(lines: seq<CartLine>, l: CartLine, id: int, size: Option<string>)
    ensures FindKey(lines + [l], id, size) ==
              (if FindKey(lines, id, size) >= 0 then FindKey(lines, id, size)
               else if HasKey(l, id, size) then |lines| else -1)
    decreases |lines|
  {
    if |lines| > 0 {
      assert (lines + [l])[1..] == lines[1..] + [l];
      FindKeyAppend(lines[1..], l, id, size);
    }
  }

  /** The test `removeFromCart` filters by: the line does not hold the key. */
  function OtherKey(id: int, size: Option<string>): CartLine -> bool {
    l => !HasKey(l, id, size)
  }

  /** `removeFromCart`: drop the lines with the key, keeping the rest in
      order. */
  function RemoveFromCart(lines: seq<CartLine>, id: int, size: Option<string>): (r: seq<CartLine>)
    ensures forall i :: 0 <= i < |r| ==> !HasKey(r[i], id, size) && r[i] in lines
    ensures forall i :: 0 <= i < |lines| && !HasKey(lines[i], id, size) ==> lines[i] in r
    ensures Seqs.IsSubseq(r, lines)
    ensures !KeyPresent(lines, id, size) ==> r == lines
    ensures Valid(lines) ==> Valid(r)
  {
    RemoveFacts(lines, id, size);
    Seqs.Filter(lines, OtherKey(id, size))
  }

  lemma RemoveFacts(lines: seq<CartLine>, id: int, size: Option<string>)
    ensures Seqs.IsSubseq(Seqs.Filter(lines, OtherKey(id, size)), lines)
    ensures !KeyPresent(lines, id, size) ==> Seqs.Filter(lines, OtherKey(id, size)) == lines
    ensures Valid(lines) ==> Valid(Seqs.Filter(lines, OtherKey(id, size)))
  {
    Seqs.FilterIsSubseq(lines, OtherKey(id, size));
    if !KeyPresent(lines, id, size) {
      Seqs.FilterKeepsAll(lines, OtherKey(id, size));
    }
    if Valid(lines) {
      Seqs.FilterPairwise(lines, OtherKey(id, size), KeysDiffer);
    }
  }

  /** `updateQuantity`: a quantity of zero or less removes the line; any
      other quantity replaces the quantity of the line with the key. */
  function UpdateQuantity(lines: seq<CartLine>, id: int, size: Option<string>, quantity: int): (r: seq<CartLine>)
    ensures quantity <= 0 ==> r == RemoveFromCart(lines, id, size)
    ensures quantity > 0 ==>
              && |r| == |lines|
              && (forall i :: 0 <= i < |lines| ==> r[i].info == lines[i].info && r[i].size == lines[i].size)
              && (forall i :: 0 <= i < |lines| && !HasKey(lines[i], id, size) ==> r[i] == lines[i])
              && GetItemQuantity(r, id, size) == (if KeyPresent(lines, id, size) then quantity else 0)
    ensures Valid(lines) ==> Valid(r)
  {
    if quantity <= 0 then RemoveFromCart(lines, id, size)
    else
      var r := seq(|lines|, i requires 0 <= i < |lines| =>
                 if HasKey(lines[i], id, size) then lines[i].(quantity := quantity) else lines[i]);
      FindKeyFrame(lines, r, id, size);
      r
  }

  /** `clearCart`. */
  function ClearCart(): (r: seq<CartLine>)
    ensures Valid(r) && forall id, size :: !KeyPresent(r, id, size)
  {
    []
  }

  /** `isInCart`: with a non-empty size, whether that exact line exists; with
      no size or the empty size, whether any line holds the product. */
  predicate IsInCart(lines: seq<CartLine>, id: int, size: Option<string>) {
    if TruthyString(size) then KeyPresent(lines, id, size)
    else exists i :: 0 <= i < |lines| && lines[i].info.id == id
  }

  /** `isInCart` agrees with `getItemQuantity`: an exact size asks about one
      key, a missing or empty size about every size of the product. */
  lemma IsInCartQuantity(lines: seq<CartLine>, id: int, size: Option<string>)
    requires Valid(lines)
    ensures TruthyString(size) ==> (IsInCart(lines, id, size) <==> GetItemQuantity(lines, id, size) > 0)
    ensures !TruthyString(size) ==>
              (IsInCart(lines, id, size) <==> exists s :: GetItemQuantity(lines, id, s) > 0)
  {
    if !TruthyString(size) && IsInCart(lines, id, size) {
      var i :| 0 <= i < |lines| && lines[i].info.id == id;
      assert HasKey(lines[i], id, lines[i].size);
      assert GetItemQuantity(lines, id, lines[i].size) > 0;
    }
  }

  /** Whatever the size, the product just added is in the cart. */
  lemma AddThenInCart(lines: seq<CartLine>, info: ItemInfo, size: Option<string>)
    ensures IsInCart(AddToCart(lines, info, size), info.id, size)
  {
    var r := AddToCart(lines, info, size);
    var k := FindKey(lines, info.id, size);
    if k >= 0 {
      assert HasKey(r[k], info.id, size);
    } else {
      assert HasKey(r[|r| - 1], info.id, size);
    }
  }

  /** `cartCount`: the quantities summed from the first line to the last. */
  function CartCount(lines: seq<CartLine>): (n: int)
    ensures Valid(lines) ==> n >= |lines|
    decreases |lines|
  {
    if |lines| == 0 then 0
    else CartCount(lines[..|lines| - 1]) + lines[|lines| - 1].quantity
  }

  lemma {:induction false} CartCountAppend(a: seq<CartLine>, b: seq<CartLine>)
    ensures CartCount(a + b) == CartCount(a) + CartCount(b)
    decreases |b|
  {
    if |b| == 0 {
      assert a + b == a;
    } else {
      assert (a + b)[..|a + b| - 1] == a + b[..|b| - 1];
      CartCountAppend(a, b[..|b| - 1]);
    }
  }

  /** The count of a cart cut around one line. */
  lemma CartCountSplice(a: seq<CartLine>, x: CartLine, c: seq<CartLine>)
    ensures CartCount(a + [x] + c) == CartCount(a) + x.quantity + CartCount(c)
  {
    CartCountAppend(a + [x], c);
    CartCountAppend(a, [x]);
    assert [x][..0] == [];
  }

  /** Changing one line's quantity changes the count by the difference. */
  lemma CartCountUpdate(lines: seq<CartLine>, k: int, q: int)
    requires 0 <= k < |lines|
    ensures CartCount(lines[k := lines[k].(quantity := q)]) == CartCount(lines) - lines[k].quantity + q
  {
    var v := lines[k].(quantity := q);
    Seqs.SpliceAt(lines, k, v);
    CartCountSplice(lines[..k], lines[k], lines[k + 1..]);
    CartCountSplice(lines[..k], v, lines[k + 1..]);
  }

  /** `addToCart` raises the item count by exactly one. */
  lemma CartCountAdd(lines: seq<CartLine>, info: ItemInfo, size: Option<string>)
    ensures CartCount(AddToCart(lines, info, size)) == CartCount(lines) + 1
  {
    var k := FindKey(lines, info.id, size);
    if k >= 0 {
      CartCountUpdate(lines, k, lines[k].quantity + 1);
    } else {
      CartCountAppend(lines, [CartLine(info, size, 1)]);
    }
  }

  /** Removing a key lowers the count by that key's quantity. */
  lemma {:induction false} CartCountRemove(lines: seq<CartLine>, id: int, size: Option<string>)
    requires Valid(lines)
    ensures CartCount(RemoveFromCart(lines, id, size)) == CartCount(lines) - GetItemQuantity(lines, id, size)
    decreases |lines|
  {
    if |lines| > 0 {
      var init := lines[..|lines| - 1];
      assert Valid(init) by { ValidInit(lines, id, size); }
      CartCountRemove(init, id, size);
      RemoveStep(lines, id, size);
    } else {
      assert !KeyPresent(lines, id, size);
    }
  }

  /** The inductive step of `CartCountRemove`: the last line either goes with
      the key, which then occurs nowhere before it, or stays and counts on
      both sides. */
  lemma RemoveStep(lines: seq<CartLine>, id: int, size: Option<string>)
    requires Valid(lines) && |lines| > 0
    ensures var init := lines[..|lines| - 1];
            CartCount(RemoveFromCart(lines, id, size)) - CartCount(lines) + GetItemQuantity(lines, id, size)
            == CartCount(RemoveFromCart(init, id, size)) - CartCount(init) + GetItemQuantity(init, id, size)
  {
    var n := |lines|;
    var init, last := lines[..n - 1], lines[n - 1];
    var r0 := RemoveFromCart(init, id, size);
    var tail := if HasKey(last, id, size) then [] else [last];
    assert HasKey(last, id, size) ==> GetItemQuantity(init, id, size) == 0 by {
      ValidInit(lines, id, size);
    }
    assert RemoveFromCart(lines, id, size) == r0 + tail by { RemoveLast(lines, id, size); }
    assert GetItemQuantity(lines, id, size) ==
             if HasKey(last, id, size) then last.quantity else GetItemQuantity(init, id, size) by {
      RemoveLast(lines, id, size);
    }
    assert CartCount(r0 + tail) == CartCount(r0) + CartCount(tail) by { CartCountAppend(r0, tail); }
    assert CartCount(tail) == if HasKey(last, id, size) then 0 else last.quantity by {
      assert [last][..0] == [];
    }
    assert CartCount(lines) == CartCount(init) + last.quantity;
  }

  /** Dropping the last line of a valid cart leaves a valid cart, in which
      the last line's key no longer occurs. */
  lemma ValidInit(lines: seq<CartLine>, id: int, size: Option<string>)
    requires Valid(lines) && |lines| > 0
    ensures Valid(lines[..|lines| - 1])
    ensures HasKey(lines[|lines| - 1], id, size) ==> GetItemQuantity(lines[..|lines| - 1], id, size) == 0
  {
    var n := |lines|;
    var init := lines[..n - 1];
    assert Valid(init);
    if HasKey(lines[n - 1], id, size) {
      forall i | 0 <= i < |init| ensures !HasKey(init[i], id, size) {
        assert KeysDiffer(lines[i], lines[n - 1]);
      }
    }
  }

  /** How removing a key treats the last line of a cart. */
  lemma RemoveLast(lines: seq<CartLine>, id: int, size: Option<string>)
    requires Valid(lines) && |lines| > 0
    ensures RemoveFromCart(lines, id, size) ==
              RemoveFromCart(lines[..|lines| - 1], id, size) +
              (if HasKey(lines[|lines| - 1], id, size) then [] else [lines[|lines| - 1]])
    ensures GetItemQuantity(lines, id, size) ==
              if HasKey(lines[|lines| - 1], id, size) then lines[|lines| - 1].quantity
              else GetItemQuantity(lines[..|lines| - 1], id, size)
  {
    var n := |lines|;
    var init := lines[..n - 1];
    var last := lines[n - 1];
    assert lines == init + [last];
    Seqs.FilterAppend(init, [last], OtherKey(id, size));
    QuantityLast(lines, id, size);
  }

  lemma QuantityLast(lines: seq<CartLine>, id: int, size: Option<string>)
    requires Valid(lines) && |lines| > 0
    ensures GetItemQuantity(lines, id, size) ==
              if HasKey(lines[|lines| - 1], id, size) then lines[|lines| - 1].quantity
              else GetItemQuantity(lines[..|lines| - 1], id, size)
  {
    var n := |lines|;
    var init := lines[..n - 1];
    assert lines == init + [lines[n - 1]];
    FindKeyAppend(init, lines[n - 1], id, size);
    if HasKey(lines[n - 1], id, size) {
      UniqueKey(lines, id, size, n - 1);
    }
  }

  /** The price `totalPrice` charges per unit: the original price when it is
      set and higher than the price, the price otherwise. */
  function UnitPrice(info: ItemInfo): (u: real)
    ensures u >= info.price
    ensures TruthyNumber(info.originalPrice) ==> u >= info.originalPrice.value
    ensures u == info.price || (info.originalPrice.Some? && u == info.originalPrice.value)
  {
    if Discounted(info.originalPrice, info.price) then info.originalPrice.value else info.price
  }

  /** `totalPrice`: unit price times quantity, summed from the first line to
      the last. */
  function TotalPrice(lines: seq<CartLine>): real
    decreases |lines|
  {
    if |lines| == 0 then 0.0
    else TotalPrice(lines[..|lines| - 1]) + LineCost(lines[|lines| - 1])
  }

  /** What one line adds to `totalPrice`: its unit price times its quantity. */
  function LineCost(l: CartLine): real {
    UnitPrice(l.info) * l.quantity as real
  }

  /** The sum of shelf prices times quantities: what the line prices on show
      add up to. */
  function ShelfTotal(lines: seq<CartLine>): real
    decreases |lines|
  {
    if |lines| == 0 then 0.0
    else ShelfTotal(lines[..|lines| - 1]) + lines[|lines| - 1].info.price * lines[|lines| - 1].quantity as real
  }

  /** `totalPrice` never charges less than the shelf prices, and charges
      exactly them when no line carries a discount. */
  lemma TotalPriceVersusShelf(lines: seq<CartLine>)
    requires Valid(lines)
    ensures TotalPrice(lines) >= ShelfTotal(lines)
    ensures (forall i :: 0 <= i < |lines| ==> !Discounted(lines[i].info.originalPrice, lines[i].info.price))
              ==> TotalPrice(lines) == ShelfTotal(lines)
  {
    TotalAtLeastShelf(lines);
    if forall i :: 0 <= i < |lines| ==> !Discounted(lines[i].info.originalPrice, lines[i].info.price) {
      TotalIsShelf(lines);
    }
  }

  lemma {:induction false} TotalAtLeastShelf(lines: seq<CartLine>)
    requires forall i :: 0 <= i < |lines| ==> lines[i].quantity >= 1
    ensures TotalPrice(lines) >= ShelfTotal(lines)
    decreases |lines|
  {
    if |lines| > 0 {
      var init := lines[..|lines| - 1];
      var l := lines[|lines| - 1];
      assert forall i :: 0 <= i < |init| ==> init[i] == lines[i];
      TotalAtLeastShelf(init);
      ScaleMonotone(l.info.price, UnitPrice(l.info), l.quantity as real);
    }
  }

  lemma {:induction false} TotalIsShelf(lines: seq<CartLine>)
    requires forall i :: 0 <= i < |lines| ==> !Discounted(lines[i].info.originalPrice, lines[i].info.price)
    ensures TotalPrice(lines) == ShelfTotal(lines)
    decreases |lines|
  {
    if |lines| > 0 {
      var init := lines[..|lines| - 1];
      var l := lines[|lines| - 1];
      assert forall i :: 0 <= i < |init| ==> init[i] == lines[i];
      TotalIsShelf(init);
      assert UnitPrice(l.info) == l.info.price;
    }
  }

  lemma {:induction false} TotalPriceAppend(a: seq<CartLine>, b: seq<CartLine>)
    ensures TotalPrice(a + b) == TotalPrice(a) + TotalPrice(b)
    decreases |b|
  {
    if |b| == 0 {
      assert a + b == a;
    } else {
      assert (a + b)[..|a + b| - 1] == a + b[..|b| - 1];
      TotalPriceAppend(a, b[..|b| - 1]);
    }
  }

  /** The total of a cart cut around one line. */
  lemma TotalPriceSplice(a: seq<CartLine>, x: CartLine, c: seq<CartLine>)
    ensures TotalPrice(a + [x] + c) == TotalPrice(a) + LineCost(x) + TotalPrice(c)
  {
    TotalPriceAppend(a + [x], c);
    TotalPriceAppend(a, [x]);
    assert [x][..0] == [];
  }

  /** Replacing one line swaps its cost in the total for the new line's. */
  lemma TotalPriceReplace(lines: seq<CartLine>, k: int, v: CartLine)
    requires 0 <= k < |lines|
    ensures TotalPrice(lines[k := v]) == TotalPrice(lines) - LineCost(lines[k]) + LineCost(v)
  {
    var a, c := lines[..k], lines[k + 1..];
    assert TotalPrice(lines) == TotalPrice(a) + LineCost(lines[k]) + TotalPrice(c) by {
      Seqs.SpliceAt(lines, k, v);
      TotalPriceSplice(a, lines[k], c);
    }
    assert TotalPrice(lines[k := v]) == TotalPrice(a) + LineCost(v) + TotalPrice(c) by {
      Seqs.SpliceAt(lines, k, v);
      TotalPriceSplice(a, v, c);
    }
  }

  /** Changing one line's quantity changes the total by its unit price times
      the difference. */
  lemma TotalPriceUpdate(lines: seq<CartLine>, k: int, q: int)
    requires 0 <= k < |lines|
    ensures TotalPrice(lines[k := lines[k].(quantity := q)]) ==
              TotalPrice(lines) + UnitPrice(lines[k].info) * (q - lines[k].quantity) as real
  {
    var v := lines[k].(quantity := q);
    var d := LineCost(v) - LineCost(lines[k]);
    assert d == UnitPrice(lines[k].info) * (q - lines[k].quantity) as real by {
      LineCostUpdate(lines[k], q);
    }
    assert TotalPrice(lines[k := v]) == TotalPrice(lines) + d by {
      TotalPriceReplace(lines, k, v);
    }
  }

  /** One more unit adds one unit price to a line's cost. */
  lemma LineCostIncrement(l: CartLine)
    ensures LineCost(l.(quantity := l.quantity + 1)) == LineCost(l) + UnitPrice(l.info)
  {
    var u, q := UnitPrice(l.info), l.quantity as real;
    assert u * (q + 1.0) == u * q + u;
    assert (l.quantity + 1) as real == q + 1.0;
  }

  lemma LineCostUpdate(l: CartLine, q: int)
    ensures LineCost(l.(quantity := q)) == LineCost(l) + UnitPrice(l.info) * (q - l.quantity) as real
  {
    ScaleDifference(UnitPrice(l.info), q as real, l.quantity as real);
  }

  /** `addToCart` raises the total by one unit price: that of the existing
      line's snapshot when the key is present, the new product's otherwise. */
  lemma TotalPriceAdd(lines: seq<CartLine>, info: ItemInfo, size: Option<string>)
    ensures KeyPresent(lines, info.id, size) ==>
              TotalPrice(AddToCart(lines, info, size)) ==
                TotalPrice(lines) + UnitPrice(lines[FindKey(lines, info.id, size)].info)
    ensures !KeyPresent(lines, info.id, size) ==>
              TotalPrice(AddToCart(lines, info, size)) == TotalPrice(lines) + UnitPrice(info)
  {
    var k := FindKey(lines, info.id, size);
    var r := AddToCart(lines, info, size);
    assert KeyPresent(lines, info.id, size) <==> k >= 0;
    if k >= 0 {
      var l := lines[k];
      var l' := l.(quantity := l.quantity + 1);
      assert TotalPrice(lines[k := l']) == TotalPrice(lines) - LineCost(l) + LineCost(l') by {
        TotalPriceReplace(lines, k, l');
      }
      assert LineCost(l') == LineCost(l) + UnitPrice(l.info) by { LineCostIncrement(l); }
      assert r == lines[k := l'];
    } else {
      var l := CartLine(info, size, 1);
      assert TotalPrice(lines + [l]) == TotalPrice(lines) + LineCost(l) by {
        TotalPriceAppend(lines, [l]);
        assert [l][..0] == [];
      }
    }
  }

  /** `clearCart` leaves nothing to count or pay. */
  lemma ClearCartEmpties(id: int, size: Option<string>)
    ensures CartCount(ClearCart()) == 0 && TotalPrice(ClearCart()) == 0.0
    ensures GetItemQuantity(ClearCart(), id, size) == 0 && !IsInCart(ClearCart(), id, size)
  {
  }

  /** `n` calls of `addToCart`. */
  function AddRepeatedly(lines: seq<CartLine>, info: ItemInfo, size: Option<string>, n: nat): seq<CartLine>
  {
    if n == 0 then lines else AddToCart(AddRepeatedly(lines, info, size, n - 1), info, size)
  }

  /** After `n` adds of a key the cart did not hold, the key has quantity `n`
      in a single line appended at the end, and nothing else changed. */
  lemma {:induction false} AddRepeatedlyFresh(lines: seq<CartLine>, info: ItemInfo, size: Option<string>, n: nat)
    requires Valid(lines) && !KeyPresent(lines, info.id, size) && n >= 1
    ensures AddRepeatedly(lines, info, size, n) == lines + [CartLine(info, size, n)]
    ensures GetItemQuantity(AddRepeatedly(lines, info, size, n), info.id, size) == n
  {
    var l := CartLine(info, size, n);
    if n > 1 {
      var prev := lines + [CartLine(info, size, n - 1)];
      assert AddRepeatedly(lines, info, size, n - 1) == prev by {
        AddRepeatedlyFresh(lines, info, size, n - 1);
      }
      assert KeyPresent(prev, info.id, size) && FindKey(prev, info.id, size) == |lines| by {
        assert HasKey(prev[|lines|], info.id, size);
        FindKeyAppend(lines, CartLine(info, size, n - 1), info.id, size);
      }
      assert AddRepeatedly(lines, info, size, n) == AddToCart(prev, info, size);
      assert AddToCart(prev, info, size) == prev[|lines| := prev[|lines|].(quantity := n)];
      assert prev[|lines| := prev[|lines|].(quantity := n)] == lines + [l];
    } else {
      assert AddRepeatedly(lines, info, size, n) == AddToCart(lines, info, size);
    }
    assert FindKey(lines + [l], info.id, size) == |lines| by {
      FindKeyAppend(lines, l, info.id, size);
    }
  }
}
