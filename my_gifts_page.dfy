/** The "my gifts" page: the inventory's items filtered by rarity, and the
    total value of the whole inventory. The filter is compared with the
    lower-cased rarity as it is, without lower-casing the filter itself. */
module MyGiftsPage {
  import opened Wrappers
  import opened Seqs
  import opened Text

  const AllFilter: string := "all"

  /** The fields of an inventory item the page computes with. */
  datatype InventoryItem = InventoryItem(id: string, name: string, rarity: string, currentPrice: real)

  predicate Kept(filter: string, item: InventoryItem) {
    filter == AllFilter || ToLower(item.rarity) == filter
  }

  /** `inventory?.items.filter(…) || []`; `None` while there is no inventory. */
  function FilteredItems(inventory: Option<seq<InventoryItem>>, filter: string): (r: seq<InventoryItem>)
    ensures inventory.None? ==> r == []
    ensures inventory.Some? ==> IsSublist(r, inventory.value)
    ensures inventory.Some? ==> forall x :: x in r <==> x in inventory.value && Kept(filter, x)
    ensures inventory.Some? ==> |r| == Count((x: InventoryItem) => Kept(filter, x), inventory.value)
  {
    if inventory.None? then []
    else
      var f := (x: InventoryItem) => Kept(filter, x);
      FilterIsSublist(f, inventory.value);
      CountIsFilterLength(f, inventory.value);
      forall x ensures x in Filter(f, inventory.value) <==> x in inventory.value && Kept(filter, x) {
        FilterKeepsExactly(f, inventory.value, x);
      }
      Filter(f, inventory.value)
  }

  function PriceOf(x: InventoryItem): real { x.currentPrice }

  /** `inventory?.items.reduce((sum, item) => sum + item.currentPrice, 0) || 0`. */
  function TotalValue(inventory: Option<seq<InventoryItem>>): real {
    if inventory.None? then 0.0 else Sum(PriceOf, inventory.value)
  }

  /** Filter "all" shows the whole inventory. */
  lemma AllShowsEverything(items: seq<InventoryItem>)
    ensures FilteredItems(Some(items), AllFilter) == items
  {
    FilterAllKept((x: InventoryItem) => Kept(AllFilter, x), items);
  }

  /** A filter with an upper-case letter (other than "all") shows nothing,
      since it is compared with a lower-cased rarity. */
  lemma UpperCaseFilterShowsNothing(items: seq<InventoryItem>, filter: string, k: nat)
    requires filter != AllFilter && k < |filter| && 'A' <= filter[k] <= 'Z'
    ensures FilteredItems(Some(items), filter) == []
  {
    forall i | 0 <= i < |items| ensures !Kept(filter, items[i]) {
      assert ToLower(items[i].rarity) != filter;
    }
    FilterNoneKept((x: InventoryItem) => Kept(filter, x), items);
  }

  /** The total covers every item, whatever the filter shows: with
      non-negative prices the shown items are worth no more than it. */
  lemma TotalCoversShown(items: seq<InventoryItem>, filter: string)
    requires forall i :: 0 <= i < |items| ==> items[i].currentPrice >= 0.0
    ensures Sum(PriceOf, FilteredItems(Some(items), filter)) <= TotalValue(Some(items))
  {
    SumFilterAtMost(PriceOf, (x: InventoryItem) => Kept(filter, x), items);
  }

  /** With no inventory nothing is shown and the total is 0. */
  lemma NoInventory(filter: string)
    ensures FilteredItems(None, filter) == [] && TotalValue(None) == 0.0
  {
  }
}
