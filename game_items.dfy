/** The shared catalogue of game items: sixteen items in five rarities, each
    with a price in TON and a drop chance in percent, plus the lookups and the
    weighted draw the client and server share. */
module GameItems {
  import opened Wrappers
  import opened Seqs
  import opened Weighted

  datatype Rarity = Common | Rare | Epic | Legendary | Mythic

  datatype GameItem = GameItem(
    id: string,
    name: string,
    emoji: string,
    rarity: Rarity,
    basePrice: real,
    gradient: string,
    dropChance: real,
    description: string,
    imageUrl: Option<string>)

  function Item(id: string, name: string, emoji: string, rarity: Rarity, basePrice: real,
                gradient: string, dropChance: real, description: string): GameItem
  {
    GameItem(id, name, emoji, rarity, basePrice, gradient, dropChance, description, None)
  }

  const BunnyMuffin: GameItem :=
    Item("bunny_muffin", "Bunny Muffin", "🧁", Common, 0.5,
         "from-pink-400 to-rose-500", 15.0, "Sweet treat for gaming sessions")

  const LuckyPaw: GameItem :=
    Item("lucky_paw", "Lucky Paw", "🐾", Common, 0.3,
         "from-amber-400 to-orange-500", 15.0, "Brings good fortune")

  const MysteryGift: GameItem :=
    Item("mystery_gift", "Mystery Gift", "🎁", Common, 0.8,
         "from-purple-400 to-pink-500", 10.0, "What's inside? Nobody knows!")

  const GameCoin: GameItem :=
    Item("game_coin", "Game Coin", "🪙", Common, 0.2,
         "from-yellow-400 to-amber-500", 10.0, "Basic currency for trades")

  const NeonCrystal: GameItem :=
    Item("neon_crystal", "Neon Crystal", "💎", Rare, 2.5,
         "from-cyan-400 to-blue-500", 12.0, "Glowing crystal with mysterious powers")

  const GoldenTicket: GameItem :=
    Item("golden_ticket", "Golden Ticket", "🎫", Rare, 3.0,
         "from-yellow-400 to-orange-500", 10.0, "Access to exclusive games")

  const MagicPotion: GameItem :=
    Item("magic_potion", "Magic Potion", "🧪", Rare, 1.8,
         "from-green-400 to-emerald-500", 8.0, "Enhances your gaming abilities")

  const CyberHelmet: GameItem :=
    Item("cyber_helmet", "Cyber Helmet", "⚡", Epic, 8.0,
         "from-indigo-400 to-purple-500", 8.0, "Advanced gaming gear")

  const RainbowGem: GameItem :=
    Item("rainbow_gem", "Rainbow Gem", "🌈", Epic, 12.0,
         "from-pink-400 via-purple-500 to-indigo-500", 4.0, "Rare multicolored gemstone")

  const TimeCrystal: GameItem :=
    Item("time_crystal", "Time Crystal", "⏰", Epic, 15.0,
         "from-blue-400 to-cyan-500", 3.0, "Manipulates time in games")

  const DragonEgg: GameItem :=
    Item("dragon_egg", "Dragon Egg", "🥚", Legendary, 50.0,
         "from-red-500 to-orange-600", 2.0, "Legendary creature waiting to hatch")

  const PhoenixFeather: GameItem :=
    Item("phoenix_feather", "Phoenix Feather", "🪶", Legendary, 75.0,
         "from-orange-500 to-red-600", 1.5, "Grants resurrection powers")

  const CosmicOrb: GameItem :=
    Item("cosmic_orb", "Cosmic Orb", "🌌", Legendary, 100.0,
         "from-purple-600 to-indigo-700", 0.5, "Contains the power of the universe")

  const InfinityStone: GameItem :=
    Item("infinity_stone", "Infinity Stone", "💫", Mythic, 500.0,
         "from-purple-700 via-pink-600 to-red-600", 0.5, "Ultimate power source")

  const RealityShard: GameItem :=
    Item("reality_shard", "Reality Shard", "✨", Mythic, 1000.0,
         "from-indigo-700 via-purple-700 to-pink-700", 0.3, "Fragment of reality itself")

  const GodTierCrown: GameItem :=
    Item("god_tier_crown", "God Tier Crown", "👑", Mythic, 2000.0,
         "from-yellow-500 via-orange-500 to-red-600", 0.2, "Crown of the gaming gods")

  /** The catalogue, in its declared order. */
  const Catalogue: seq<GameItem> := [
    BunnyMuffin, LuckyPaw, MysteryGift, GameCoin,
    NeonCrystal, GoldenTicket, MagicPotion, CyberHelmet,
    RainbowGem, TimeCrystal, DragonEgg, PhoenixFeather,
    CosmicOrb, InfinityStone, RealityShard, GodTierCrown
  ]

  function DropChanceOf(item: GameItem): real { item.dropChance }

  /** The drop chances in catalogue order. */
  function Weights(items: seq<GameItem>): (w: seq<real>)
    ensures |w| == |items|
    ensures forall i :: 0 <= i < |items| ==> w[i] == items[i].dropChance
  {
    seq(|items|, i requires 0 <= i < |items| => items[i].dropChance)
  }

  /** `getItemsByRarity`. */
  function ItemsByRarity(items: seq<GameItem>, r: Rarity): (s: seq<GameItem>)
    ensures forall x :: x in s <==> x in items && x.rarity == r
    ensures IsSublist(s, items)
  {
    FilterIsSublist((x: GameItem) => x.rarity == r, items);
    forall x ensures x in Filter((x: GameItem) => x.rarity == r, items) <==> x in items && x.rarity == r {
      FilterKeepsExactly((x: GameItem) => x.rarity == r, items, x);
    }
    Filter((x: GameItem) => x.rarity == r, items)
  }

  /** `getItemById`: the first item with that id. */
  function ItemById(items: seq<GameItem>, id: string): (r: Option<GameItem>)
    ensures r.Some? ==> r.value in items && r.value.id == id
    ensures r.None? <==> forall i :: 0 <= i < |items| ==> items[i].id != id
  {
    Find((x: GameItem) => x.id == id, items)
  }

  /** `getTotalDropChance`: the sum of all drop chances. */
  function TotalDropChance(items: seq<GameItem>): (r: real)
    ensures r == Prefix(Weights(items), |items|)
  {
    PrefixIsSum(items, |items|);
    assert items[..|items|] == items;
    Sum(DropChanceOf, items)
  }

  /** The running total of the draw loop equals the `reduce` over a prefix. */
  lemma {:induction false} PrefixIsSum(items: seq<GameItem>, k: nat)
    requires k <= |items|
    ensures Prefix(Weights(items), k) == Sum(DropChanceOf, items[..k])
  {
    if k > 0 {
      PrefixIsSum(items, k - 1);
      assert items[..k] == items[..k - 1] + [items[k - 1]];
      SumAppend(DropChanceOf, items[..k - 1], [items[k - 1]]);
    }
  }

  lemma TotalIsPrefix(items: seq<GameItem>)
    ensures Prefix(Weights(items), |items|) == TotalDropChance(items)
  {
    PrefixIsSum(items, |items|);
    assert items[..|items|] == items;
  }

  const CatalogueWeights: seq<real> :=
    [15.0, 15.0, 10.0, 10.0, 12.0, 10.0, 8.0, 8.0, 4.0, 3.0, 2.0, 1.5, 0.5, 0.5, 0.3, 0.2]

  lemma WeightsOfCatalogue()
    ensures Weights(Catalogue) == CatalogueWeights
  {
  }

  const CatalogueRarities: seq<Rarity> :=
    [Common, Common, Common, Common, Rare, Rare, Rare, Epic, Epic, Epic,
     Legendary, Legendary, Legendary, Mythic, Mythic, Mythic]

  lemma RaritiesOfCatalogue()
    ensures |Catalogue| == |CatalogueRarities|
    ensures forall i :: 0 <= i < |Catalogue| ==> Catalogue[i].rarity == CatalogueRarities[i]
  {
  }

  /** The running totals of the catalogue's drop chances. */
  const CatalogueTotals: seq<real> :=
    [0.0, 15.0, 30.0, 40.0, 50.0, 62.0, 72.0, 80.0, 88.0, 92.0, 95.0, 97.0, 98.5, 99.0, 99.5, 99.8, 100.0]

  lemma TotalsGap(j: nat)
    requires j < 16
    ensures CatalogueTotals[j + 1] == CatalogueTotals[j] + CatalogueWeights[j]
  {
  }

  lemma {:induction false} CataloguePrefixAt(k: nat)
    requires k <= 16
    ensures Prefix(CatalogueWeights, k) == CatalogueTotals[k]
  {
    if k > 0 {
      CataloguePrefixAt(k - 1);
      TotalsGap(k - 1);
    }
  }

  /** The running totals at the ends of the five rarity blocks, 4, 7, 10, 13
      and 16. */
  lemma CataloguePrefixes()
    ensures Prefix(CatalogueWeights, 0) == 0.0 && Prefix(CatalogueWeights, 4) == 50.0
    ensures Prefix(CatalogueWeights, 7) == 80.0 && Prefix(CatalogueWeights, 10) == 95.0
    ensures Prefix(CatalogueWeights, 13) == 99.0 && Prefix(CatalogueWeights, 16) == 100.0
    ensures Prefix(Weights(Catalogue), 16) == 100.0
  {
    WeightsOfCatalogue();
    CataloguePrefixAt(4);
    CataloguePrefixAt(7);
    CataloguePrefixAt(10);
    CataloguePrefixAt(13);
    CataloguePrefixAt(16);
  }

  /** The drop chances add up to 100 percent. */
  lemma CatalogueTotal()
    ensures TotalDropChance(Catalogue) == 100.0
  {
    TotalIsPrefix(Catalogue);
    CataloguePrefixes();
  }

  /** The sum over a block of items is the difference of two running totals. */
  lemma {:induction false} BlockSum(items: seq<GameItem>, a: nat, b: nat)
    requires a <= b <= |items|
    ensures TotalDropChance(items[a..b]) == Prefix(Weights(items), b) - Prefix(Weights(items), a)
  {
    PrefixIsSum(items, a);
    PrefixIsSum(items, b);
    assert items[..b] == items[..a] + items[a..b];
    SumAppend(DropChanceOf, items[..a], items[a..b]);
  }

  /** The items of rarity `r` are exactly the block `Catalogue[a..b]`. */
  lemma RarityBlock(r: Rarity, a: nat, b: nat)
    requires a <= b <= |CatalogueRarities|
    requires forall i :: 0 <= i < |CatalogueRarities| ==> (CatalogueRarities[i] == r <==> a <= i < b)
    ensures ItemsByRarity(Catalogue, r) == Catalogue[a..b]
    ensures TotalDropChance(ItemsByRarity(Catalogue, r)) == Prefix(Weights(Catalogue), b) - Prefix(Weights(Catalogue), a)
  {
    RaritiesOfCatalogue();
    FilterBlock((x: GameItem) => x.rarity == r, Catalogue, a, b);
    BlockSum(Catalogue, a, b);
  }

  /** Per rarity the chances are 50, 30, 15, 4 and 1 percent, as the table's
      section headings say. */
  lemma RarityTotals()
    ensures TotalDropChance(ItemsByRarity(Catalogue, Common)) == 50.0
    ensures TotalDropChance(ItemsByRarity(Catalogue, Rare)) == 30.0
    ensures TotalDropChance(ItemsByRarity(Catalogue, Epic)) == 15.0
    ensures TotalDropChance(ItemsByRarity(Catalogue, Legendary)) == 4.0
    ensures TotalDropChance(ItemsByRarity(Catalogue, Mythic)) == 1.0
  {
    CommonTotal();
    RareTotal();
    EpicTotal();
    LegendaryTotal();
    MythicTotal();
  }

  lemma CommonTotal()
    ensures TotalDropChance(ItemsByRarity(Catalogue, Common)) == 50.0
  {
    assert Prefix(CatalogueWeights, 4) - Prefix(CatalogueWeights, 0) == 50.0 by {
      CataloguePrefixes();
    }
    RarityTotal(Common, 0, 4, 50.0);
  }

  lemma RareTotal()
    ensures TotalDropChance(ItemsByRarity(Catalogue, Rare)) == 30.0
  {
    assert Prefix(CatalogueWeights, 7) - Prefix(CatalogueWeights, 4) == 30.0 by {
      CataloguePrefixes();
    }
    RarityTotal(Rare, 4, 7, 30.0);
  }

  lemma EpicTotal()
    ensures TotalDropChance(ItemsByRarity(Catalogue, Epic)) == 15.0
  {
    assert Prefix(CatalogueWeights, 10) - Prefix(CatalogueWeights, 7) == 15.0 by {
      CataloguePrefixes();
    }
    RarityTotal(Epic, 7, 10, 15.0);
  }

  lemma LegendaryTotal()
    ensures TotalDropChance(ItemsByRarity(Catalogue, Legendary)) == 4.0
  {
    assert Prefix(CatalogueWeights, 13) - Prefix(CatalogueWeights, 10) == 4.0 by {
      CataloguePrefixes();
    }
    RarityTotal(Legendary, 10, 13, 4.0);
  }

  lemma MythicTotal()
    ensures TotalDropChance(ItemsByRarity(Catalogue, Mythic)) == 1.0
  {
    assert Prefix(CatalogueWeights, 16) - Prefix(CatalogueWeights, 13) == 1.0 by {
      CataloguePrefixes();
    }
    RarityTotal(Mythic, 13, 16, 1.0);
  }

  lemma RarityTotal(r: Rarity, a: nat, b: nat, total: real)
    requires a <= b <= |CatalogueRarities|
    requires forall i :: 0 <= i < |CatalogueRarities| ==> (CatalogueRarities[i] == r <==> a <= i < b)
    requires Prefix(CatalogueWeights, b) - Prefix(CatalogueWeights, a) == total
    ensures TotalDropChance(ItemsByRarity(Catalogue, r)) == total
  {
    WeightsOfCatalogue();
    RarityBlock(r, a, b);
  }

  /** Every item can drop. */
  lemma CatalogueWeightsPositive()
    ensures AllPositive(Weights(Catalogue))
  {
  }

  /** Every item has a positive price. */
  lemma CataloguePricesPositive()
    ensures forall i :: 0 <= i < |Catalogue| ==> Catalogue[i].basePrice > 0.0
  {
  }

  /** Ids are unique, so `getItemById` finds each item by its own id. */
  lemma CatalogueIdsDistinct()
    ensures forall i, j :: 0 <= i < j < |Catalogue| ==> Catalogue[i].id != Catalogue[j].id
  {
  }

  lemma {:induction false} FindById(items: seq<GameItem>, i: nat)
    requires i < |items|
    requires forall a, b :: 0 <= a < b < |items| ==> items[a].id != items[b].id
    ensures ItemById(items, items[i].id) == Some(items[i])
  {
    if i > 0 {
      assert items[0].id != items[i].id;
      FindById(items[1..], i - 1);
      assert items[1..][i - 1] == items[i];
    }
  }

  /** The item the inclusive walk of `getRandomItem` lands on for threshold
      `random`, or the first item when no running total reaches it. */
  function InclusiveDraw(items: seq<GameItem>, random: real): GameItem
    requires |items| > 0
  {
    match AtMostIndex(Weights(items), random)
    case Some(i) => items[i]
    case None => items[0]
  }

  /** The item drawn is always one of the listed items. */
  lemma InclusiveDrawListed(items: seq<GameItem>, random: real)
    requires |items| > 0
    ensures InclusiveDraw(items, random) in items
  {
  }

  /** `getRandomItem`, with `Math.random()` passed in as `u`. */
  method RandomItem(u: real) returns (item: GameItem)
    ensures item == InclusiveDraw(Catalogue, u * TotalDropChance(Catalogue))
  {
    var random := u * TotalDropChance(Catalogue);
    item := DrawInclusive(Catalogue, random);
  }

  /** The draw loop of `getRandomItem`: add each drop chance to a running
      total and return the first item whose total reaches `random`, or the
      first item when none does. */
  method DrawInclusive(items: seq<GameItem>, random: real) returns (item: GameItem)
    requires |items| > 0
    ensures item == InclusiveDraw(items, random)
  {
    var w := Weights(items);
    var current := 0.0;
    var i := 0;
    while i < |items|
      invariant 0 <= i <= |items|
      invariant current == Prefix(w, i)
      invariant forall j :: 0 <= j < i ==> random > Through(w, j)
    {
      current := current + items[i].dropChance;
      if random <= current {
        assert AtMostFrom(w, random, i) == Some(i);
        return items[i];
      }
      i := i + 1;
    }
    return items[0];
  }

  /** For a `Math.random()` value in `(0, 1)` the fallback is never taken,
      and item `i` is drawn exactly when `u * 100` lies in
      `(Prefix(i), Prefix(i + 1)]`, an interval as wide as its drop chance
      (the value 0 itself draws the first item). */
  lemma RandomItemDistribution(u: real, i: nat)
    requires 0.0 < u < 1.0 && i < |Catalogue|
    ensures AtMostIndex(Weights(Catalogue), u * 100.0).Some?
    ensures AtMostIndex(Weights(Catalogue), u * 100.0) == Some(i)
        <==> Prefix(Weights(Catalogue), i) < u * 100.0 <= Prefix(Weights(Catalogue), i + 1)
    ensures Prefix(Weights(Catalogue), i + 1) - Prefix(Weights(Catalogue), i) == Catalogue[i].dropChance
  {
    CatalogueTotal();
    CatalogueWeightsPositive();
    InclusiveInterval(Catalogue, u * 100.0, i);
  }

  /** For positive drop chances and a threshold in `(0, total]`, the
      inclusive walk always finds an item, and item `i` exactly on its own
      interval of the running totals. */
  lemma InclusiveInterval(items: seq<GameItem>, x: real, i: nat)
    requires AllPositive(Weights(items)) && i < |items| && 0.0 < x <= TotalDropChance(items)
    ensures AtMostIndex(Weights(items), x).Some?
    ensures AtMostIndex(Weights(items), x) == Some(i) <==> Prefix(Weights(items), i) < x <= Prefix(Weights(items), i + 1)
    ensures Prefix(Weights(items), i + 1) - Prefix(Weights(items), i) == items[i].dropChance
  {
    TotalIsPrefix(items);
    AtMostFound(Weights(items), x);
    AtMostInterval(Weights(items), x, i);
  }
}
