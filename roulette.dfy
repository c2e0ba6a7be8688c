/** The roulette routes: `GET /seed` commits to a fresh server seed by
    publishing its hash, and `POST /spin` charges 0.1 per roll, derives a
    number from the committed seed, the client's seed and a per-session nonce,
    and pays out the catalogue item that number selects. */
module Roulette {
  import opened Wrappers
  import opened Text
  import opened Crypto
  import opened ProvablyFair
  import opened Weighted
  import opened GameItems
  import opened GameState

  const CostPerRoll: real := 0.1

  /** The part of the express session the routes use. */
  class Session {
    const id: string
    var serverSeed: Option<string>
    var nonce: Option<nat>

    constructor (id: string)
      ensures this.id == id && serverSeed == None && nonce == None
    {
      this.id := id;
      serverSeed := None;
      nonce := None;
    }
  }

  datatype SpinReply =
    | SeedNotSet
    | Unauthorized
    | InsufficientBalance
    | Won(item: GameItem, serverSeed: string)

  function StatusCode(r: SpinReply): (code: int)
    ensures code == 200 <==> r.Won?
    ensures code == 401 <==> r.Unauthorized?
  {
    match r
    case SeedNotSet => 400
    case Unauthorized => 401
    case InsufficientBalance => 400
    case Won(_, _) => 200
  }

  /** JavaScript's `x % m` for a non-negative `x` and a positive `m`. */
  function JsRemainder(x: real, m: real): (r: real)
    requires x >= 0.0 && m > 0.0
    ensures 0.0 <= r < m
    ensures ((x - r) / m).Floor as real == (x - r) / m
  {
    var q := (x / m).Floor;
    FloorBounds(x, m, q);
    var r := x - m * (q as real);
    ExactQuotient(m, q);
    assert x - r == m * (q as real);
    r
  }

  lemma FloorBounds(x: real, m: real, q: int)
    requires m > 0.0 && q == (x / m).Floor
    ensures m * (q as real) <= x < m * (q as real) + m
  {
    LowerBound(x, m, q as real);
    UpperBound(x, m, q as real);
  }

  lemma LowerBound(x: real, m: real, a: real)
    requires m > 0.0 && a <= x / m
    ensures m * a <= x
  {
    ScaleLess(m, a, x / m);
  }

  lemma UpperBound(x: real, m: real, a: real)
    requires m > 0.0 && x / m < a + 1.0
    ensures x < m * a + m
  {
    ScaleLess(m, x / m, a + 1.0);
  }

  lemma ExactQuotient(m: real, q: int)
    requires m > 0.0
    ensures (m * (q as real)) / m == q as real
  {
  }

  lemma ScaleLess(m: real, a: real, b: real)
    requires m > 0.0
    ensures a <= b ==> m * a <= m * b
    ensures a < b ==> m * a < m * b
  {
  }

  /** The item the draw loop of `/spin` picks: the first whose running total exceeds
      the winning weight, or the last item when none does. */
  function StrictDraw(items: seq<GameItem>, winningWeight: real): GameItem
    requires |items| > 0
  {
    match BelowIndex(Weights(items), winningWeight)
    case Some(i) => items[i]
    case None => items[|items| - 1]
  }

  /** The item drawn is always one of the listed items. */
  lemma StrictDrawListed(items: seq<GameItem>, winningWeight: real)
    requires |items| > 0
    ensures StrictDraw(items, winningWeight) in items
  {
  }

  method PickWinningItem(winningWeight: real) returns (item: GameItem)
    ensures item == StrictDraw(Catalogue, winningWeight)
  {
    item := DrawStrict(Catalogue, winningWeight);
  }

  /** The draw loop of `/spin`: add each drop chance to a running weight and
      return the first item whose weight passes `winningWeight`, or the last
      item when none does. */
  method DrawStrict(items: seq<GameItem>, winningWeight: real) returns (item: GameItem)
    requires |items| > 0
    ensures item == StrictDraw(items, winningWeight)
  {
    var w := Weights(items);
    var currentWeight := 0.0;
    var i := 0;
    while i < |items|
      invariant 0 <= i <= |items|
      invariant currentWeight == Prefix(w, i)
      invariant forall j :: 0 <= j < i ==> winningWeight >= Through(w, j)
    {
      currentWeight := currentWeight + items[i].dropChance;
      if winningWeight < currentWeight {
        assert BelowFrom(w, winningWeight, i) == Some(i);
        return items[i];
      }
      i := i + 1;
    }
    return items[|items| - 1];
  }

  /** `randomNumber % totalWeight`, as the route computes the winning weight. */
  function AsWrittenWeight(randomNumber: nat, totalWeight: real): (x: real)
    requires totalWeight > 0.0
    ensures 0.0 <= x < totalWeight
  {
    JsRemainder(randomNumber as real, totalWeight)
  }

  /** The winning weight resolved to tenths of the total, the resolution the
      drop chances are written in: the corrected draw, under which every item
      can drop. */
  function SpinWeight(randomNumber: nat, totalWeight: real): (x: real)
    requires totalWeight > 0.0
    ensures 0.0 <= x < totalWeight
  {
    JsRemainder(randomNumber as real, totalWeight * 10.0) / 10.0
  }

  /** The item one spin of `/spin` pays out, as written: the winning weight is
      `randomNumber % totalWeight`. */
  function SpinItem(c: Primitives, serverSeed: string, clientSeed: string, nonce: nat): GameItem
  {
    CatalogueTotal();
    StrictDraw(Catalogue, AsWrittenWeight(CalculateResult(c, serverSeed, clientSeed, nonce), TotalDropChance(Catalogue)))
  }

  /** The item the corrected draw pays out, with the winning weight in tenths. */
  function CorrectedSpinItem(c: Primitives, serverSeed: string, clientSeed: string, nonce: nat): GameItem
  {
    CatalogueTotal();
    StrictDraw(Catalogue, SpinWeight(CalculateResult(c, serverSeed, clientSeed, nonce), TotalDropChance(Catalogue)))
  }

  /** The draw of `/spin`: the provably fair number, reduced modulo the
      catalogue's total, picks the item. */
  method Spin(c: Primitives, serverSeed: string, clientSeed: string, nonce: nat) returns (item: GameItem)
    ensures item == SpinItem(c, serverSeed, clientSeed, nonce)
  {
    var randomNumber := CalculateResult(c, serverSeed, clientSeed, nonce);
    CatalogueTotal();
    var totalWeight := TotalDropChance(Catalogue);
    var winningWeight := AsWrittenWeight(randomNumber, totalWeight);
    item := PickWinningItem(winningWeight);
  }

  /** The corrected draw: the provably fair number, reduced to tenths of the
      catalogue's total, picks the item. */
  method CorrectedSpin(c: Primitives, serverSeed: string, clientSeed: string, nonce: nat) returns (item: GameItem)
    ensures item == CorrectedSpinItem(c, serverSeed, clientSeed, nonce)
  {
    var randomNumber := CalculateResult(c, serverSeed, clientSeed, nonce);
    CatalogueTotal();
    var totalWeight := TotalDropChance(Catalogue);
    var winningWeight := SpinWeight(randomNumber, totalWeight);
    item := PickWinningItem(winningWeight);
  }

  /** The guard of `/spin`: both seeds present and non-empty, and a nonce. */
  predicate SeedReady(serverSeed: Option<string>, clientSeed: Option<string>, nonce: Option<nat>) {
    serverSeed.Some? && serverSeed.value != "" && clientSeed.Some? && clientSeed.value != "" && nonce.Some?
  }

  /** `GET /seed`, with the 32 random bytes passed in. */
  method HandleGetSeed(session: Session, c: Primitives, random: seq<byte>) returns (seedHash: string)
    requires |random| == 32
    modifies session
    ensures session.serverSeed == Some(GenerateServerSeed(random)) && session.nonce == Some(0)
    ensures seedHash == HashSeed(c, GenerateServerSeed(random))
    ensures HexDecode(seedHash) == c.sha256(Utf8(session.serverSeed.value))
  {
    var serverSeed := GenerateServerSeed(random);
    seedHash := HashSeed(c, serverSeed);
    session.serverSeed := Some(serverSeed);
    session.nonce := Some(0);
  }

  /** `POST /spin` for the authenticated address `user` (if any), with the
      request body's `clientSeed` and `rollCount` and the clock as `now`. */
  method HandleSpin(gs: GameStateManager, session: Session, c: Primitives, user: Option<string>,
                    clientSeed: Option<string>, rollCount: int, now: int) returns (reply: SpinReply)
    requires gs.Valid()
    modifies gs, session
    ensures gs.Valid()
    ensures !SeedReady(old(session.serverSeed), clientSeed, old(session.nonce)) ==>
              reply == SeedNotSet && unchanged(gs) && unchanged(session)
    ensures SeedReady(old(session.serverSeed), clientSeed, old(session.nonce)) && user.None? ==>
              reply == Unauthorized && unchanged(gs) && unchanged(session)
    ensures SeedReady(old(session.serverSeed), clientSeed, old(session.nonce)) && user.Some? ==>
              var a, b := user.value, BalanceOf(old(gs.balances), user.value);
              var cost := CostPerRoll * rollCount as real;
              && (b < cost ==>
                    && reply == InsufficientBalance
                    && gs.balances == old(gs.balances)[a := b] && gs.history == old(gs.history)
                    && unchanged(session))
              && (b >= cost ==>
                    var seed, n := old(session.serverSeed).value, old(session.nonce).value;
                    && reply.Won? && reply.serverSeed == seed
                    && reply.item == SpinItem(c, seed, clientSeed.value, n)
                    && gs.history == old(gs.history) + [HistoryEntry("roulette-" + session.id, Win, reply.item.basePrice, now, a)]
                    && gs.balances == Credit(Credit(old(gs.balances), a, -cost), a, reply.item.basePrice)
                    && session.serverSeed == old(session.serverSeed) && session.nonce == Some(n + 1))
    ensures gs.games == old(gs.games) && gs.stats == old(gs.stats) && gs.timers == old(gs.timers)
  {
    if !SeedReady(session.serverSeed, clientSeed, session.nonce) {
      return SeedNotSet;
    }
    if user.None? {
      return Unauthorized;
    }
    var serverSeed, nonce, address := session.serverSeed.value, session.nonce.value, user.value;
    var totalCost := CostPerRoll * rollCount as real;
    var paid := Charge(gs, address, totalCost);
    if !paid {
      return InsufficientBalance;
    }
    var winningItem := Spin(c, serverSeed, clientSeed.value, nonce);
    RecordWin(gs, session, address, winningItem, now);
    return Won(winningItem, serverSeed);
  }

  /** The balance test of `POST /spin` and, when it passes, the charge. */
  method Charge(gs: GameStateManager, address: string, cost: real) returns (paid: bool)
    requires gs.Valid()
    modifies gs
    ensures gs.Valid()
    ensures paid <==> BalanceOf(old(gs.balances), address) >= cost
    ensures paid ==> gs.balances == Credit(old(gs.balances), address, -cost)
    ensures !paid ==> gs.balances == old(gs.balances)[address := BalanceOf(old(gs.balances), address)]
    ensures gs.history == old(gs.history)
    ensures gs.games == old(gs.games) && gs.stats == old(gs.stats) && gs.timers == old(gs.timers)
  {
    var currentBalance := gs.GetUserBalance(address);
    if currentBalance < cost {
      return false;
    }
    ghost var topped := gs.balances;
    var _ := gs.UpdateUserBalance(address, -cost);
    assert Credit(topped, address, -cost) == Credit(old(gs.balances), address, -cost);
    return true;
  }

  /** The end of a paid `POST /spin`: the win is recorded and credited, and
      the session's nonce advances. */
  method RecordWin(gs: GameStateManager, session: Session, address: string, item: GameItem, now: int)
    requires gs.Valid() && session.nonce.Some?
    modifies gs, session
    ensures gs.Valid()
    ensures gs.history == old(gs.history) + [HistoryEntry("roulette-" + session.id, Win, item.basePrice, now, address)]
    ensures gs.balances == Credit(old(gs.balances), address, item.basePrice)
    ensures session.serverSeed == old(session.serverSeed) && session.nonce == Some(old(session.nonce).value + 1)
    ensures gs.games == old(gs.games) && gs.stats == old(gs.stats) && gs.timers == old(gs.timers)
  {
    gs.AddHistoryEntry(address, "roulette-" + session.id, Win, item.basePrice, now);
    session.nonce := Some(session.nonce.value + 1);
  }

  // ------------------------------------------------------------ properties

  /** With the catalogue's total of 100 the winning weight is a number of
      tenths in `[0, 100)`. */
  lemma SpinWeightOfCatalogue(randomNumber: nat)
    ensures SpinWeight(randomNumber, 100.0) == (randomNumber % 1000) as real / 10.0
  {
    var x := randomNumber as real;
    var r := JsRemainder(x, 1000.0);
    var q := ((x - r) / 1000.0).Floor;
    assert x == 1000.0 * q as real + r;
    assert 0 <= randomNumber - 1000 * q < 1000 by {
      assert 0.0 <= r < 1000.0;
    }
    assert randomNumber % 1000 == randomNumber - 1000 * q;
  }

  /** For any winning weight below the total, the fallback is never taken:
      weight `x` lands on item `i` exactly when it lies in
      `[Prefix(i), Prefix(i + 1))`. */
  lemma StrictDrawInterval(x: real, i: nat)
    requires 0.0 <= x < 100.0 && i < |Catalogue|
    ensures BelowIndex(Weights(Catalogue), x).Some?
    ensures StrictDraw(Catalogue, x) == Catalogue[i]
        <==> Prefix(Weights(Catalogue), i) <= x < Prefix(Weights(Catalogue), i + 1)
  {
    CatalogueTotal();
    TotalIsPrefix(Catalogue);
    BelowFound(Weights(Catalogue), x);
    CatalogueWeightsPositive();
    BelowInterval(Weights(Catalogue), x, i);
    CatalogueIdsDistinct();
    var j := BelowIndex(Weights(Catalogue), x).value;
    if i != j {
      assert Catalogue[i].id != Catalogue[j].id;
    }
  }

  /** The running totals of the catalogue, in tenths of a percent. */
  const PrefixTenths: seq<int> := [0, 150, 300, 400, 500, 620, 720, 800, 880, 920, 950, 970, 985, 990, 995, 998, 1000]

  /** Each drop chance is the gap between two neighbouring running totals. */
  lemma TenthsGap(j: nat)
    requires j < 16
    ensures CatalogueWeights[j] * 10.0 == (PrefixTenths[j + 1] - PrefixTenths[j]) as real
  {
  }

  lemma {:induction false} PrefixTenthsOk(k: nat)
    requires k <= 16
    ensures Prefix(Weights(Catalogue), k) == PrefixTenths[k] as real / 10.0
  {
    if k > 0 {
      PrefixTenthsOk(k - 1);
      WeightsOfCatalogue();
      TenthsGap(k - 1);
    }
  }

  /** A spin pays item `i` exactly when the random number falls, modulo 1000,
      in a block of residues as many as ten times its drop chance: every item
      can be won, with the probability its drop chance states. */
  lemma SpinDistribution(randomNumber: nat, i: nat)
    requires i < |Catalogue|
    ensures StrictDraw(Catalogue, SpinWeight(randomNumber, 100.0)) == Catalogue[i]
        <==> PrefixTenths[i] <= randomNumber % 1000 < PrefixTenths[i + 1]
    ensures PrefixTenths[i + 1] - PrefixTenths[i] == (Catalogue[i].dropChance * 10.0).Floor
  {
    SpinWeightOfCatalogue(randomNumber);
    StrictDrawInterval(SpinWeight(randomNumber, 100.0), i);
    PrefixTenthsOk(i);
    PrefixTenthsOk(i + 1);
    assert Prefix(Weights(Catalogue), i + 1) == Prefix(Weights(Catalogue), i) + Catalogue[i].dropChance;
    assert Catalogue[i].dropChance * 10.0 == (PrefixTenths[i + 1] - PrefixTenths[i]) as real;
  }

  /** As written, the winning weight is a whole number below 100. */
  lemma AsWrittenWeightOfCatalogue(randomNumber: nat)
    ensures AsWrittenWeight(randomNumber, 100.0) == (randomNumber % 100) as real
  {
    var x := randomNumber as real;
    var r := JsRemainder(x, 100.0);
    var q := ((x - r) / 100.0).Floor;
    assert x == 100.0 * q as real + r;
    assert 0 <= randomNumber - 100 * q < 100 by {
      assert 0.0 <= r < 100.0;
    }
    assert randomNumber % 100 == randomNumber - 100 * q;
  }

  /** As written, no random number ever wins the item whose interval holds no
      whole number: `[98.5, 99)`, `[99.5, 99.8)` and `[99.8, 100)`. */
  lemma AsWrittenNeverDraws(randomNumber: nat, i: nat)
    requires i == 12 || i == 14 || i == 15
    ensures StrictDraw(Catalogue, AsWrittenWeight(randomNumber, 100.0)) != Catalogue[i]
  {
    AsWrittenWeightOfCatalogue(randomNumber);
    var k := randomNumber % 100;
    StrictDrawInterval(k as real, i);
    PrefixTenthsOk(i);
    PrefixTenthsOk(i + 1);
  }

  /** As written, a spin pays item `i` exactly when ten times the random
      number modulo 100 lies in the item's block of running totals (in
      tenths); the spin depends only on the seeds, the nonce and the
      catalogue. */
  lemma SpinItemInterval(c: Primitives, serverSeed: string, clientSeed: string, nonce: nat, i: nat)
    requires i < |Catalogue|
    ensures SpinItem(c, serverSeed, clientSeed, nonce) == Catalogue[i]
        <==> PrefixTenths[i] <= 10 * (CalculateResult(c, serverSeed, clientSeed, nonce) % 100) < PrefixTenths[i + 1]
  {
    var r := CalculateResult(c, serverSeed, clientSeed, nonce);
    CatalogueTotal();
    AsWrittenWeightOfCatalogue(r);
    var k := r % 100;
    StrictDrawInterval(k as real, i);
    PrefixTenthsOk(i);
    PrefixTenthsOk(i + 1);
  }

  /** A paid spin moves the caller's balance by the payout minus the cost and
      leaves every other address alone. */
  lemma SpinBalance(m: map<string, real>, a: string, rollCount: nat, item: GameItem, other: string)
    requires item.basePrice >= 0.0 && CostPerRoll * rollCount as real <= BalanceOf(m, a)
    requires other != a
    ensures BalanceOf(Credit(Credit(m, a, -CostPerRoll * rollCount as real), a, item.basePrice), a)
            == BalanceOf(m, a) - CostPerRoll * rollCount as real + item.basePrice
    ensures BalanceOf(Credit(Credit(m, a, -CostPerRoll * rollCount as real), a, item.basePrice), other)
            == BalanceOf(m, other)
  {
  }

  /** `rollCount` is not validated: a negative count passes the balance check
      and credits the caller instead of charging them. */
  lemma NegativeRollCountCredits(m: map<string, real>, a: string, rollCount: int)
    requires rollCount < 0 && LedgerOk(m)
    ensures BalanceOf(m, a) >= CostPerRoll * rollCount as real
    ensures BalanceOf(Credit(m, a, -CostPerRoll * rollCount as real), a) > BalanceOf(m, a)
  {
    if a in m {
      assert m[a] >= 0.0;
    }
  }
}
