/** The wishlist store: entries keyed by product id alone. */
module Wishlist {
  import opened Products
  import Seqs

  predicate IdsDiffer(a: WishlistItem, b: WishlistItem) {
    a.info.id != b.info.id
  }

  /** The store's invariant: at most one entry per product id. */
  predicate Valid(items: seq<WishlistItem>) {
    forall i, j :: 0 <= i < j < |items| ==> IdsDiffer(items[i], items[j])
  }

  /** `isInWishlist`: some entry has the id. */
  predicate IsInWishlist(items: seq<WishlistItem>, id: int) {
    exists i :: 0 <= i < |items| && items[i].info.id == id
  }

  /** The ids the wishlist holds. */
  function Ids(items: seq<WishlistItem>): set<int> {
    set i | 0 <= i < |items| :: items[i].info.id
  }

  /** `addToWishlist`: nothing happens when the id is already present;
      otherwise the snapshot is appended. */
  function AddToWishlist(items: seq<WishlistItem>, item: WishlistItem): (r: seq<WishlistItem>)
    ensures |r| >= |items| && r[..|items|] == items
    ensures IsInWishlist(items, item.info.id) ==> r == items
    ensures !IsInWishlist(items, item.info.id) ==> |r| == |items| + 1 && r[|items|] == item
    ensures Ids(r) == Ids(items) + {item.info.id}
    ensures Valid(items) ==> Valid(r)
  {
    if IsInWishlist(items, item.info.id) then items
    else
      var r := items + [item];
      assert forall i :: 0 <= i < |r| ==> r[i].info.id in Ids(items) + {item.info.id};
      assert forall x :: x in Ids(items) ==> exists i :: 0 <= i < |items| && items[i].info.id == x && r[i] == items[i];
      r
  }

  /** The test `removeFromWishlist` filters by. */
  function OtherId(id: int): WishlistItem -> bool {
    (w: WishlistItem) => w.info.id != id
  }

  /** `removeFromWishlist`: drop every entry with the id, keeping the rest in
      order. */
  function RemoveFromWishlist(items: seq<WishlistItem>, id: int): (r: seq<WishlistItem>)
    ensures Seqs.IsSubseq(r, items)
    ensures Ids(r) == Ids(items) - {id}
    ensures !IsInWishlist(items, id) ==> r == items
    ensures Valid(items) ==> Valid(r)
    ensures Valid(items) && IsInWishlist(items, id) ==> |r| == |items| - 1
  {
    RemoveFacts(items, id);
    Seqs.Filter(items, OtherId(id))
  }

  lemma RemoveFacts(items: seq<WishlistItem>, id: int)
    ensures Seqs.IsSubseq(Seqs.Filter(items, OtherId(id)), items)
    ensures Ids(Seqs.Filter(items, OtherId(id))) == Ids(items) - {id}
    ensures !IsInWishlist(items, id) ==> Seqs.Filter(items, OtherId(id)) == items
    ensures Valid(items) ==> Valid(Seqs.Filter(items, OtherId(id)))
    ensures Valid(items) && IsInWishlist(items, id) ==> |Seqs.Filter(items, OtherId(id))| == |items| - 1
  {
    Seqs.FilterIsSubseq(items, OtherId(id));
    RemoveIds(items, id);
    if !IsInWishlist(items, id) {
      Seqs.FilterKeepsAll(items, OtherId(id));
    }
    if Valid(items) {
      RemoveValid(items, id);
    }
  }

  /** Filtering out an id removes exactly that id from the id set. */
  lemma RemoveIds(items: seq<WishlistItem>, id: int)
    ensures Ids(Seqs.Filter(items, OtherId(id))) == Ids(items) - {id}
  {
    var r := Seqs.Filter(items, OtherId(id));
    Seqs.FilterIsSubseq(items, OtherId(id));
    forall x | x in Ids(items) - {id} ensures x in Ids(r) {
      var i :| 0 <= i < |items| && items[i].info.id == x;
      assert items[i] in r;
    }
    forall x | x in Ids(r) ensures x in Ids(items) - {id} {
      var i :| 0 <= i < |r| && r[i].info.id == x;
      assert r[i] in items;
    }
  }

  /** Filtering out an id keeps the ids distinct and, when the id was
      present, drops exactly one entry. */
  lemma RemoveValid(items: seq<WishlistItem>, id: int)
    requires Valid(items)
    ensures Valid(Seqs.Filter(items, OtherId(id)))
    ensures IsInWishlist(items, id) ==> |Seqs.Filter(items, OtherId(id))| == |items| - 1
  {
    var r := Seqs.Filter(items, OtherId(id));
    Seqs.FilterPairwise(items, OtherId(id), IdsDiffer);
    assert |Ids(r)| == |r| by {
      CountIsIds(r);
    }
    assert |Ids(items)| == |items| by {
      CountIsIds(items);
    }
    RemoveIds(items, id);
  }

  /** In a valid wishlist the count is the number of distinct ids. */
  lemma {:induction false} CountIsIds(items: seq<WishlistItem>)
    requires Valid(items)
    ensures |Ids(items)| == |items|
    decreases |items|
  {
    if |items| > 0 {
      var init := items[..|items| - 1];
      assert Valid(init);
      CountIsIds(init);
      assert Ids(items) == Ids(init) + {items[|items| - 1].info.id} by {
        forall x | x in Ids(items) ensures x in Ids(init) + {items[|items| - 1].info.id} {
          var i :| 0 <= i < |items| && items[i].info.id == x;
          if i < |items| - 1 { assert init[i] == items[i]; }
        }
        forall x | x in Ids(init) ensures x in Ids(items) {
          var i :| 0 <= i < |init| && init[i].info.id == x;
          assert items[i] == init[i];
        }
      }
      assert items[|items| - 1].info.id !in Ids(init) by {
        forall i | 0 <= i < |init| ensures init[i].info.id != items[|items| - 1].info.id {
          assert IdsDiffer(items[i], items[|items| - 1]);
        }
      }
    }
  }

  /** `toggleWishlist`: remove when present, append when absent. */
  function ToggleWishlist(items: seq<WishlistItem>, item: WishlistItem): (r: seq<WishlistItem>)
    ensures IsInWishlist(items, item.info.id) ==> r == RemoveFromWishlist(items, item.info.id)
    ensures !IsInWishlist(items, item.info.id) ==> r == AddToWishlist(items, item)
    ensures IsInWishlist(r, item.info.id) <==> !IsInWishlist(items, item.info.id)
    ensures Valid(items) ==> Valid(r)
  {
    var id := item.info.id;
    if IsInWishlist(items, id) then
      var r := RemoveFromWishlist(items, id);
      assert id !in Ids(r);
      r
    else
      var r := AddToWishlist(items, item);
      assert r[|items|].info.id == id;
      r
  }

  /** Toggling the same product twice restores its membership, and restores
      the whole list when the product was absent. */
  lemma ToggleTwice(items: seq<WishlistItem>, item: WishlistItem)
    ensures IsInWishlist(ToggleWishlist(ToggleWishlist(items, item), item), item.info.id)
              == IsInWishlist(items, item.info.id)
    ensures !IsInWishlist(items, item.info.id) && Valid(items) ==>
              ToggleWishlist(ToggleWishlist(items, item), item) == items
  {
    var id := item.info.id;
    if !IsInWishlist(items, id) && Valid(items) {
      var once := items + [item];
      Seqs.FilterAppend(items, [item], OtherId(id));
      Seqs.FilterKeepsAll(items, OtherId(id));
      assert Seqs.Filter([item], OtherId(id)) == [];
      assert ToggleWishlist(once, item) == RemoveFromWishlist(once, id) by {
        assert once[|items|].info.id == id;
      }
    }
  }

  /** `clearWishlist`. */
  function ClearWishlist(): (r: seq<WishlistItem>)
    ensures Valid(r) && Ids(r) == {}
  {
    []
  }

  /** `wishlistCount`: the number of entries. */
  function WishlistCount(items: seq<WishlistItem>): nat {
    |items|
  }

  /** The count is the number of distinct products saved, and drops to zero
      on clear. */
  lemma WishlistCountIsIds(items: seq<WishlistItem>)
    requires Valid(items)
    ensures WishlistCount(items) == |Ids(items)|
    ensures WishlistCount(ClearWishlist()) == 0
  {
    CountIsIds(items);
  }

  /** `isInWishlist` holds exactly for the ids of the entries. */
  lemma IsInWishlistIds(items: seq<WishlistItem>, id: int)
    ensures IsInWishlist(items, id) <==> id in Ids(items)
  {
  }

  /** `moveToCart` in the store: it only raises a notice, when the id is
      present, and leaves the wishlist as it was. */
  function MoveToCart(items: seq<WishlistItem>, id: int): (r: (seq<WishlistItem>, bool))
    ensures r.0 == items
    ensures r.1 <==> id in Ids(items)
  {
    (items, IsInWishlist(items, id))
  }
}
