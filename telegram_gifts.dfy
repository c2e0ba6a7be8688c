/** The Telegram Star Gifts service: a cached list of gifts (the bot API's
    answer, or a built-in list of eight when there is no bot token or the API
    gives nothing), their conversion into shop items priced at one TON per ten
    stars, and the lookups the shop uses. The API call itself is a parameter:
    `fetched` is what `fetchRealTelegramGifts` returned (empty on any failure). */
module TelegramGifts {
  import opened Wrappers
  import opened Seqs
  import opened Text
  import opened GameItems

  datatype TelegramGift = TelegramGift(
    id: string,
    name: string,
    emoji: string,
    stars: real,
    rarity: Rarity,
    description: string,
    imageUrl: Option<string>,
    soldOut: bool,
    totalCount: Option<int>,
    remainingCount: Option<int>)

  /** A gift as the shop lists it (`convertToGameItem`). */
  datatype ConvertedGift = ConvertedGift(
    id: string,
    name: string,
    emoji: string,
    basePrice: real,
    rarity: Rarity,
    dropChance: real,
    gradient: string,
    imageUrl: Option<string>,
    description: string,
    category: string,
    totalCount: Option<int>,
    remainingCount: Option<int>,
    soldOut: bool)

  const CacheDurationMs: int := 5 * 60 * 1000
  const StarsPerTon: real := 10.0
  const GiftCategory: string := "telegram_gift"

  // ------------------------------------------------------------- rarity

  /** `mapTelegramRarity` on the already lower-cased name. */
  function RarityOfLower(s: string): (r: Rarity)
    ensures r != Mythic
    ensures r == Rare <==> s == "rare" || s == "uncommon"
    ensures r == Epic <==> s == "epic" || s == "special"
    ensures r == Legendary <==> s == "legendary" || s == "unique" || s == "mythic"
  {
    if s == "common" || s == "regular" then Common
    else if s == "rare" || s == "uncommon" then Rare
    else if s == "epic" || s == "special" then Epic
    else if s == "legendary" || s == "unique" || s == "mythic" then Legendary
    else Common
  }

  /** `mapTelegramRarity`: Telegram's rarity names onto the four the shop
      knows; anything unrecognised is Common. */
  function MapTelegramRarity(s: string): (r: Rarity)
    ensures r != Mythic
  {
    RarityOfLower(ToLower(s))
  }

  /** The mapping ignores letter case. */
  lemma MapRarityIgnoresCase(s: string)
    ensures MapTelegramRarity(s) == MapTelegramRarity(ToLower(s))
  {
    ToLowerIdempotent(s);
  }

  /** The drop chances of the gift rarities (a fraction, not a percentage). */
  function RarityDropChance(r: Rarity): (p: real)
    ensures 0.0 < p <= 0.5
    ensures r == Mythic ==> p == 0.5
  {
    match r
    case Common => 0.5
    case Rare => 0.3
    case Epic => 0.15
    case Legendary => 0.05
    case Mythic => 0.5
  }

  /** The four rarities a gift can have split the whole chance between them. */
  lemma GiftDropChancesSumToOne()
    ensures RarityDropChance(Common) + RarityDropChance(Rare) + RarityDropChance(Epic) + RarityDropChance(Legendary) == 1.0
  {
  }

  function RarityGradient(r: Rarity): string {
    match r
    case Common => "from-gray-400 to-gray-600"
    case Rare => "from-blue-400 to-blue-600"
    case Epic => "from-purple-400 to-purple-600"
    case Legendary => "from-yellow-400 to-yellow-600"
    case Mythic => "from-gray-400 to-gray-600"
  }

  /** `convertToGameItem`. */
  function ConvertToGameItem(g: TelegramGift): (c: ConvertedGift)
    ensures c.id == g.id && c.name == g.name && c.emoji == g.emoji && c.rarity == g.rarity && c.description == g.description
    ensures c.basePrice * StarsPerTon == g.stars
    ensures c.category == GiftCategory && c.dropChance == RarityDropChance(g.rarity)
    ensures c.soldOut == g.soldOut && c.remainingCount == g.remainingCount && c.totalCount == g.totalCount
    ensures c.imageUrl.Some? <==> g.imageUrl.Some? && g.imageUrl.value != ""
    ensures c.imageUrl.Some? ==> c.imageUrl == g.imageUrl
    ensures c.gradient == RarityGradient(g.rarity)
  {
    ConvertedGift(g.id, g.name, g.emoji, g.stars / StarsPerTon, g.rarity, RarityDropChance(g.rarity),
                  RarityGradient(g.rarity),
                  if g.imageUrl.Some? && g.imageUrl.value != "" then g.imageUrl else None,
                  g.description, GiftCategory, g.totalCount, g.remainingCount, g.soldOut)
  }

  function ConvertAll(gs: seq<TelegramGift>): (cs: seq<ConvertedGift>)
    ensures |cs| == |gs| && forall i :: 0 <= i < |gs| ==> cs[i] == ConvertToGameItem(gs[i])
  {
    seq(|gs|, i requires 0 <= i < |gs| => ConvertToGameItem(gs[i]))
  }

  // ------------------------------------------------------------- the list

  function Gift(id: string, name: string, emoji: string, stars: real, rarity: Rarity, description: string,
                total: int, remaining: int): TelegramGift
  {
    TelegramGift(id, name, emoji, stars, rarity, description, None, false, Some(total), Some(remaining))
  }

  /** The built-in gifts served when the bot API gives nothing. */
  const MockGifts: seq<TelegramGift> := [
    Gift("delicious_cake", "Delicious Cake", "🎂", 5.0, Common, "A sweet treat for special occasions", 1000000, 999850),
    Gift("red_heart", "Red Heart", "❤️", 1.0, Common, "Show your love", 1000000, 999750),
    Gift("star", "Star", "⭐", 3.0, Common, "You are a star!", 1000000, 999900),
    Gift("blue_star", "Blue Star", "🌟", 10.0, Rare, "A rare blue star", 100000, 99750),
    Gift("green_star", "Green Star", "💚", 25.0, Epic, "An epic green star", 10000, 9850),
    Gift("golden_star", "Golden Star", "🌟", 100.0, Legendary, "The legendary golden star", 1000, 850),
    Gift("diamond", "Diamond", "💎", 250.0, Legendary, "A precious diamond gift", 500, 425),
    Gift("crown", "Crown", "👑", 500.0, Legendary, "The ultimate royal gift", 100, 75)
  ]

  /** `getGiftById` on a list: the first gift with that id. */
  function FindGift(gifts: seq<TelegramGift>, id: string): (r: Option<TelegramGift>)
    ensures r.Some? ==> r.value in gifts && r.value.id == id
    ensures r.None? <==> forall i :: 0 <= i < |gifts| ==> gifts[i].id != id
  {
    Find((g: TelegramGift) => g.id == id, gifts)
  }

  /** `isGiftAvailable` on the looked-up gift: it exists, is not sold out and
      has a positive remaining count (a missing count is 0). */
  predicate Available(g: Option<TelegramGift>) {
    g.Some? && !g.value.soldOut && g.value.remainingCount.GetOr(0) > 0
  }

  /** Every built-in gift is in stock. */
  lemma MockGiftsInStock()
    ensures forall g :: g in MockGifts ==> Available(Some(g))
  {
  }

  /** Every built-in gift can be bought. */
  lemma MockGiftsAvailable(i: nat)
    requires i < |MockGifts|
    ensures Available(FindGift(MockGifts, MockGifts[i].id))
  {
    var g := FindGift(MockGifts, MockGifts[i].id);
    assert g.Some? by {
      assert MockGifts[i].id == MockGifts[i].id;
    }
    MockGiftsInStock();
  }

  // ----------------------------------------------------------- the cache

  /** What one `getStarGifts` call returns, and the cache and timestamp it
      leaves behind. */
  datatype Refresh = Refresh(gifts: seq<TelegramGift>, cache: seq<TelegramGift>, lastUpdate: int)

  function StarGifts(cache: seq<TelegramGift>, lastUpdate: int, botToken: string,
                     fetched: seq<TelegramGift>, now: int): (r: Refresh)
    ensures r.gifts == r.cache && |r.gifts| > 0
    ensures |cache| > 0 && now - lastUpdate < CacheDurationMs ==> r == Refresh(cache, cache, lastUpdate)
    ensures !(|cache| > 0 && now - lastUpdate < CacheDurationMs) ==>
      && r.lastUpdate == now
      && r.gifts == (if botToken != "" && |fetched| > 0 then fetched else MockGifts)
  {
    if |cache| > 0 && now - lastUpdate < CacheDurationMs then Refresh(cache, cache, lastUpdate)
    else if botToken != "" && |fetched| > 0 then Refresh(fetched, fetched, now)
    else Refresh(MockGifts, MockGifts, now)
  }

  /** A call within five minutes of the list's last refill serves the same
      list from the cache, whatever the API would now answer. */
  lemma SecondCallServesCache(cache: seq<TelegramGift>, lastUpdate: int, botToken: string,
                              f1: seq<TelegramGift>, f2: seq<TelegramGift>, t1: int, t2: int)
    requires t2 < StarGifts(cache, lastUpdate, botToken, f1, t1).lastUpdate + CacheDurationMs
    ensures var first := StarGifts(cache, lastUpdate, botToken, f1, t1);
      StarGifts(first.cache, first.lastUpdate, botToken, f2, t2).gifts == first.gifts
  {
  }

  class TelegramGiftsService {
    const botToken: string
    var cache: seq<TelegramGift>
    var lastUpdate: int

    constructor (botToken: string)
      ensures this.botToken == botToken && cache == [] && lastUpdate == 0
    {
      this.botToken := botToken;
      cache := [];
      lastUpdate := 0;
    }

    /** `getStarGifts`. */
    method GetStarGifts(fetched: seq<TelegramGift>, now: int) returns (gifts: seq<TelegramGift>)
      modifies this
      ensures var r := StarGifts(old(cache), old(lastUpdate), botToken, fetched, now);
        gifts == r.gifts && cache == r.cache && lastUpdate == r.lastUpdate
    {
      if |cache| > 0 && now - lastUpdate < CacheDurationMs {
        return cache;
      }
      if botToken != "" && |fetched| > 0 {
        cache := fetched;
        lastUpdate := now;
        return fetched;
      }
      cache := MockGifts;
      lastUpdate := now;
      return MockGifts;
    }

    /** `getGiftById`. */
    method GetGiftById(id: string, fetched: seq<TelegramGift>, now: int) returns (gift: Option<TelegramGift>)
      modifies this
      ensures var r := StarGifts(old(cache), old(lastUpdate), botToken, fetched, now);
        gift == FindGift(r.gifts, id) && cache == r.cache && lastUpdate == r.lastUpdate
    {
      var gifts := GetStarGifts(fetched, now);
      gift := FindGift(gifts, id);
    }

    /** `isGiftAvailable`. */
    method IsGiftAvailable(id: string, fetched: seq<TelegramGift>, now: int) returns (ok: bool)
      modifies this
      ensures var r := StarGifts(old(cache), old(lastUpdate), botToken, fetched, now);
        ok == Available(FindGift(r.gifts, id)) && cache == r.cache && lastUpdate == r.lastUpdate
    {
      var gift := GetGiftById(id, fetched, now);
      ok := gift.Some? && !gift.value.soldOut && gift.value.remainingCount.GetOr(0) > 0;
    }
  }
}
