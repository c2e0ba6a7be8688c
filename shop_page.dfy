/** The shop page: it lists the items the shop API returned (or the local
    catalogue when there is no answer) that match the selected rarity filter
    and the search text, both compared case-insensitively. */
module ShopPage {
  import opened Wrappers
  import opened Seqs
  import opened Text
  import opened GameItems
  import opened Shop

  const AllFilter: string := "all"

  /** The rarity as the JSON item spells it. */
  function RarityName(r: Rarity): string {
    match r
    case Common => "Common"
    case Rare => "Rare"
    case Epic => "Epic"
    case Legendary => "Legendary"
    case Mythic => "Mythic"
  }

  /** `apiShopItems || gameItems`: `None` while the query has no data; an
      empty answer is still an answer. */
  function ShopItems(api: Option<seq<ShopItem>>): (items: seq<ShopItem>)
    ensures api.Some? ==> items == api.value
    ensures api.None? ==> |items| == |Catalogue| && forall i :: 0 <= i < |Catalogue| ==> items[i] == LocalItem(Catalogue[i])
  {
    if api.Some? then api.value else LocalItems(Catalogue)
  }

  /** The predicate of `filteredItems`. */
  predicate Matches(filter: string, query: string, item: ShopItem) {
    && (filter == AllFilter || ToLower(RarityName(item.RarityOf())) == ToLower(filter))
    && Contains(ToLower(item.Name()), ToLower(query))
  }

  function FilteredItems(api: Option<seq<ShopItem>>, filter: string, query: string): (r: seq<ShopItem>)
    ensures IsSublist(r, ShopItems(api))
    ensures forall x :: x in r <==> x in ShopItems(api) && Matches(filter, query, x)
    ensures |r| == Count((x: ShopItem) => Matches(filter, query, x), ShopItems(api))
  {
    var items := ShopItems(api);
    var f := (x: ShopItem) => Matches(filter, query, x);
    FilterIsSublist(f, items);
    CountIsFilterLength(f, items);
    forall x ensures x in Filter(f, items) <==> x in items && Matches(filter, query, x) {
      FilterKeepsExactly(f, items, x);
    }
    Filter(f, items)
  }

  /** With filter "all" and an empty search every item is shown, in order. */
  lemma AllAndEmptyShowEverything(api: Option<seq<ShopItem>>)
    ensures FilteredItems(api, AllFilter, "") == ShopItems(api)
  {
    var items := ShopItems(api);
    var f := (x: ShopItem) => Matches(AllFilter, "", x);
    forall i | 0 <= i < |items| ensures f(items[i]) {
      ContainsEmpty(ToLower(items[i].Name()));
    }
    FilterAllKept(f, items);
  }

  /** The rarity filter ignores letter case: "RARE" selects what "rare" does. */
  lemma FilterIgnoresCase(api: Option<seq<ShopItem>>, filter: string, query: string)
    requires filter != AllFilter && ToLower(filter) != AllFilter
    ensures FilteredItems(api, filter, query) == FilteredItems(api, ToLower(filter), query)
  {
    ToLowerIdempotent(filter);
    var f := (x: ShopItem) => Matches(filter, query, x);
    var g := (x: ShopItem) => Matches(ToLower(filter), query, x);
    FilterAgreeing(f, g, ShopItems(api));
  }
}
