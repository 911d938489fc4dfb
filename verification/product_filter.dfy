/** The filter side panel: the brand, size and colour checkbox lists, the
    price range, and the active-filter count. */
module ProductFilter {
  import Seqs

  /** `toggleSelection`: a checked item is removed (every occurrence), an
      unchecked one appended. */
  function ToggleSelection(selected: seq<string>, item: string): (r: seq<string>)
    ensures item in selected ==>
              && item !in r
              && Seqs.IsSubseq(r, selected)
              && (forall i :: 0 <= i < |selected| && selected[i] != item ==> selected[i] in r)
    ensures item !in selected ==> r == selected + [item]
    ensures forall x :: x != item ==> (x in r <==> x in selected)
  {
    if item in selected then
      Seqs.FilterIsSubseq(selected, Seqs.Except(item));
      var r := Seqs.Filter(selected, Seqs.Except(item));
      assert forall x :: x in r ==> x != item && x in selected by {
        forall x | x in r ensures x != item && x in selected {
          var k :| 0 <= k < |r| && r[k] == x;
        }
      }
      assert forall x :: x != item && x in selected ==> x in r by {
        forall x | x != item && x in selected ensures x in r {
          var k :| 0 <= k < |selected| && selected[k] == x;
        }
      }
      r
    else selected + [item]
  }

  /** Toggling an item twice restores whether it is checked; starting from
      unchecked it restores the whole list. */
  lemma ToggleTwice(selected: seq<string>, item: string)
    ensures item in ToggleSelection(ToggleSelection(selected, item), item) <==> item in selected
    ensures item !in selected ==> ToggleSelection(ToggleSelection(selected, item), item) == selected
  {
    if item !in selected {
      var once := selected + [item];
      var twice := ToggleSelection(once, item);
      Seqs.FilterAppend(selected, [item], Seqs.Except(item));
      Seqs.FilterKeepsAll(selected, Seqs.Except(item));
      assert Seqs.Filter([item], Seqs.Except(item)) == [] by {
        Seqs.FilterDropsAll([item], Seqs.Except(item));
      }
    }
  }

  /** A list without repeats stays without repeats, and its length changes
      by exactly one. */
  lemma ToggleKeepsDistinct(selected: seq<string>, item: string)
    requires Seqs.Distinct(selected)
    ensures Seqs.Distinct(ToggleSelection(selected, item))
    ensures item in selected ==> |ToggleSelection(selected, item)| == |selected| - 1
    ensures item !in selected ==> |ToggleSelection(selected, item)| == |selected| + 1
  {
    if item in selected {
      Seqs.FilterDistinct(selected, Seqs.Except(item));
      Seqs.FilterExceptLength(selected, item);
      Seqs.DistinctOnce(selected, item);
    } else {
      assert forall i :: 0 <= i < |selected| ==> selected[i] != item;
    }
  }

  /** The panel's state. */
  datatype Filters = Filters(
    brands: seq<string>,
    sizes: seq<string>,
    colors: seq<string>,
    priceLow: int,
    priceHigh: int)

  /** The price range's bounds before any change and after a reset. */
  const DefaultPriceLow: int := 0
  const DefaultPriceHigh: int := 200

  const Initial: Filters := Filters([], [], [], DefaultPriceLow, DefaultPriceHigh)

  /** `clearAllFilters`: no checked box anywhere and the default range. */
  function ClearAllFilters(f: Filters): (r: Filters)
    ensures r.brands == [] && r.sizes == [] && r.colors == []
    ensures r.priceLow == 0 && r.priceHigh == 200
  {
    Initial
  }

  /** `activeFiltersCount`: every checked box of the three lists; the price
      range does not count. */
  function ActiveFiltersCount(f: Filters): (n: nat)
    ensures n == 0 <==> f.brands == [] && f.sizes == [] && f.colors == []
  {
    |f.brands| + |f.sizes| + |f.colors|
  }

  /** Clearing leaves no active filter, and a toggle on a list without
      repeats moves the count by one in the right direction. */
  lemma CountAfterClearAndToggle(f: Filters, item: string)
    requires Seqs.Distinct(f.sizes)
    ensures ActiveFiltersCount(ClearAllFilters(f)) == 0
    ensures var g := f.(sizes := ToggleSelection(f.sizes, item));
            ActiveFiltersCount(g) == ActiveFiltersCount(f) + (if item in f.sizes then -1 else 1)
  {
    ToggleKeepsDistinct(f.sizes, item);
  }

  /** A brand checkbox's change handler, `toggleSelection` on the selected
      brands, moves the count by one in the right direction. */
  lemma CountAfterBrandToggle(f: Filters, item: string)
    requires Seqs.Distinct(f.brands)
    ensures var g := f.(brands := ToggleSelection(f.brands, item));
            ActiveFiltersCount(g) == ActiveFiltersCount(f) + (if item in f.brands then -1 else 1)
  {
    ToggleKeepsDistinct(f.brands, item);
  }

  /** A colour checkbox's change handler, `toggleSelection` on the selected
      colours, moves the count by one in the right direction. */
  lemma CountAfterColorToggle(f: Filters, item: string)
    requires Seqs.Distinct(f.colors)
    ensures var g := f.(colors := ToggleSelection(f.colors, item));
            ActiveFiltersCount(g) == ActiveFiltersCount(f) + (if item in f.colors then -1 else 1)
  {
    ToggleKeepsDistinct(f.colors, item);
  }
}
