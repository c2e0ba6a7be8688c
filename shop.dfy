/** The shop routes: the item listing (Telegram gifts first, then the local
    catalogue), and demo purchase and sell endpoints that only look items up
    and answer; no balance, history or inventory is touched. Each handler is a
    function of the gift lists `getStarGifts` served it: the listing and the
    sale read one list, while a purchase reads the list twice, once to find
    the gift and again, after an `await`, to check that it is available. The
    two reads see the same list while the cache is fresh
    (`PurchaseWithinCacheWindow`), but not necessarily across an expiry or
    another request's refill. */
module Shop {
  import opened Wrappers
  import opened GameItems
  import opened TelegramGifts

  /** An entry of the listing: a converted Telegram gift or a local item. */
  datatype ShopItem = GiftItem(gift: ConvertedGift) | LocalItem(item: GameItem) {
    function Id(): string {
      match this
      case GiftItem(g) => g.id
      case LocalItem(i) => i.id
    }
    function Name(): string {
      match this
      case GiftItem(g) => g.name
      case LocalItem(i) => i.name
    }
    function RarityOf(): Rarity {
      match this
      case GiftItem(g) => g.rarity
      case LocalItem(i) => i.rarity
    }
  }

  const SellShare: real := 0.8

  function LocalItems(items: seq<GameItem>): (r: seq<ShopItem>)
    ensures |r| == |items| && forall i :: 0 <= i < |items| ==> r[i] == LocalItem(items[i])
  {
    seq(|items|, i requires 0 <= i < |items| => LocalItem(items[i]))
  }

  /** `GET /telegram-gifts`, and the gift part of the listing. */
  function GiftItems(gifts: seq<TelegramGift>): (r: seq<ShopItem>)
    ensures |r| == |gifts| && forall i :: 0 <= i < |gifts| ==> r[i] == GiftItem(ConvertToGameItem(gifts[i]))
  {
    seq(|gifts|, i requires 0 <= i < |gifts| => GiftItem(ConvertToGameItem(gifts[i])))
  }

  /** `GET /` and `GET /items`; `served` is `None` when fetching the gifts threw. */
  function Listing(served: Option<seq<TelegramGift>>): (l: seq<ShopItem>)
    ensures |l| == (if served.None? then 0 else |served.value|) + |Catalogue|
    ensures l[|l| - |Catalogue|..] == LocalItems(Catalogue)
  {
    if served.None? then LocalItems(Catalogue)
    else GiftItems(served.value) + LocalItems(Catalogue)
  }

  /** The listing is every converted gift, in order, then the sixteen local
      items in catalogue order; without gifts it is the local items alone. */
  lemma ListingContents(served: Option<seq<TelegramGift>>)
    ensures var l := Listing(served); var n := if served.None? then 0 else |served.value|;
      && |l| == n + |Catalogue|
      && (forall i :: 0 <= i < n ==> l[i] == GiftItem(ConvertToGameItem(served.value[i])))
      && (forall i :: 0 <= i < |Catalogue| ==> l[n + i] == LocalItem(Catalogue[i]))
  {
  }


  datatype PurchaseReply =
    | GiftUnavailable                          // 400 "Gift is sold out or unavailable"
    | ItemNotFound                             // 404 "Item not found"
    | Purchased(item: ShopItem, message: string, kind: string)

  /** `POST /purchase/:itemId`: Telegram gifts are looked up first.
      `atLookup` is the list `getGiftById` was served and `atCheck` the one
      the later `isGiftAvailable` was served; the gift sold is the one found
      first. */
  function Purchase(atLookup: seq<TelegramGift>, atCheck: seq<TelegramGift>, itemId: string): (r: PurchaseReply)
    ensures r.Purchased? ==> r.item.Id() == itemId
  {
    var gift := FindGift(atLookup, itemId);
    if gift.Some? then
      if !Available(FindGift(atCheck, itemId)) then GiftUnavailable
      else Purchased(GiftItem(ConvertToGameItem(gift.value)), "Telegram gift purchase successful (demo)", "telegram_gift")
    else
      var item := ItemById(Catalogue, itemId);
      if item.None? then ItemNotFound
      else Purchased(LocalItem(item.value), "Purchase successful (demo)", "local_item")
  }

  /** The purchase route against the gift service: `getGiftById` at `t1`,
      and for a gift `isGiftAvailable` at `t2`, each with the API's answer at
      that moment passed in. */
  method HandlePurchase(svc: TelegramGiftsService, itemId: string,
                        f1: seq<TelegramGift>, t1: int, f2: seq<TelegramGift>, t2: int) returns (r: PurchaseReply)
    modifies svc
    ensures var first := StarGifts(old(svc.cache), old(svc.lastUpdate), svc.botToken, f1, t1);
      var second := StarGifts(first.cache, first.lastUpdate, svc.botToken, f2, t2);
      && r == Purchase(first.gifts, second.gifts, itemId)
      && (FindGift(first.gifts, itemId).Some? ==> svc.cache == second.cache && svc.lastUpdate == second.lastUpdate)
      && (FindGift(first.gifts, itemId).None? ==> svc.cache == first.cache && svc.lastUpdate == first.lastUpdate)
  {
    var gift := svc.GetGiftById(itemId, f1, t1);
    if gift.Some? {
      var ok := svc.IsGiftAvailable(itemId, f2, t2);
      if !ok {
        return GiftUnavailable;
      }
      return Purchased(GiftItem(ConvertToGameItem(gift.value)), "Telegram gift purchase successful (demo)", "telegram_gift");
    }
    var item := ItemById(Catalogue, itemId);
    if item.None? {
      return ItemNotFound;
    }
    return Purchased(LocalItem(item.value), "Purchase successful (demo)", "local_item");
  }

  function StatusOfPurchase(r: PurchaseReply): int {
    match r
    case GiftUnavailable => 400
    case ItemNotFound => 404
    case Purchased(_, _, _) => 200
  }

  /** Which answer a purchase gets, by where the id is found. */
  lemma PurchaseOutcomes(atLookup: seq<TelegramGift>, atCheck: seq<TelegramGift>, itemId: string)
    ensures Purchase(atLookup, atCheck, itemId) == GiftUnavailable <==>
      FindGift(atLookup, itemId).Some? && !Available(FindGift(atCheck, itemId))
    ensures Purchase(atLookup, atCheck, itemId) == ItemNotFound <==>
      FindGift(atLookup, itemId).None? && ItemById(Catalogue, itemId).None?
    ensures Purchase(atLookup, atCheck, itemId).Purchased? && Purchase(atLookup, atCheck, itemId).kind == "telegram_gift" <==>
      FindGift(atLookup, itemId).Some? && Available(FindGift(atCheck, itemId))
    ensures Purchase(atLookup, atCheck, itemId).Purchased? && Purchase(atLookup, atCheck, itemId).kind == "local_item" <==>
      FindGift(atLookup, itemId).None? && ItemById(Catalogue, itemId).Some?
  {
  }

  /** While the first read's list is fresh, the availability check is served
      the same list, and a gift purchase succeeds exactly when the gift found
      is available. */
  lemma PurchaseWithinCacheWindow(cache: seq<TelegramGift>, lastUpdate: int, botToken: string,
                                  f1: seq<TelegramGift>, f2: seq<TelegramGift>, t1: int, t2: int, itemId: string)
    requires t2 < StarGifts(cache, lastUpdate, botToken, f1, t1).lastUpdate + CacheDurationMs
    ensures var first := StarGifts(cache, lastUpdate, botToken, f1, t1);
      var second := StarGifts(first.cache, first.lastUpdate, botToken, f2, t2);
      && Purchase(first.gifts, second.gifts, itemId) == Purchase(first.gifts, first.gifts, itemId)
      && (Purchase(first.gifts, second.gifts, itemId) == GiftUnavailable <==>
            FindGift(first.gifts, itemId).Some? && !Available(FindGift(first.gifts, itemId)))
  {
    SecondCallServesCache(cache, lastUpdate, botToken, f1, f2, t1, t2);
  }

  /** Across a refill between the two reads, a gift found in stock is refused
      as sold out when the list served to the availability check has it sold
      out: the first read alone does not decide the answer. */
  lemma PurchaseAcrossRefill(atLookup: seq<TelegramGift>, atCheck: seq<TelegramGift>, itemId: string)
    requires Available(FindGift(atLookup, itemId))
    requires FindGift(atCheck, itemId).Some? && FindGift(atCheck, itemId).value.soldOut
    ensures Purchase(atLookup, atLookup, itemId).Purchased?
    ensures Purchase(atLookup, atCheck, itemId) == GiftUnavailable
  {
  }

  datatype SellReply =
    | CannotSellGift(stars: real)              // 400, with canConvert and the gift's stars
    | SellNotFound                             // 404 "Item not found"
    | Sold(price: real, message: string, kind: string)

  /** `POST /sell/:itemId`: a Telegram gift is never sold; a local item sells
      for 80 % of its base price. */
  function Sell(gifts: seq<TelegramGift>, itemId: string): (r: SellReply)
    ensures r.CannotSellGift? <==> FindGift(gifts, itemId).Some?
  {
    var gift := FindGift(gifts, itemId);
    if gift.Some? then CannotSellGift(gift.value.stars)
    else
      var item := ItemById(Catalogue, itemId);
      if item.None? then SellNotFound
      else Sold(item.value.basePrice * SellShare, "Sell successful (demo)", "local_item")
  }

  lemma SellOutcomes(gifts: seq<TelegramGift>, itemId: string)
    ensures Sell(gifts, itemId).CannotSellGift? <==> FindGift(gifts, itemId).Some?
    ensures Sell(gifts, itemId) == SellNotFound <==> FindGift(gifts, itemId).None? && ItemById(Catalogue, itemId).None?
    ensures Sell(gifts, itemId).Sold? <==> FindGift(gifts, itemId).None? && ItemById(Catalogue, itemId).Some?
    ensures Sell(gifts, itemId).Sold? ==>
      exists i :: 0 <= i < |Catalogue| && Catalogue[i].id == itemId && Sell(gifts, itemId).price == SellShare * Catalogue[i].basePrice
  {
  }

  /** Selling returns less than the item costs. */
  lemma SellBelowBasePrice(gifts: seq<TelegramGift>, itemId: string)
    requires Sell(gifts, itemId).Sold?
    ensures 0.0 < Sell(gifts, itemId).price < ItemById(Catalogue, itemId).value.basePrice
  {
    var item := ItemById(Catalogue, itemId).value;
    assert item in Catalogue;
    CataloguePricesPositive();
  }
}
