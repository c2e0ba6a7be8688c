/** The user routes: the caller's game history, a profile aggregated from it
    (games, wins, losses, win rate, winnings, losses, net profit, balance), a
    demo inventory, demo earnings derived from the total winnings, and a demo
    claim. Every handler answers 401 without an authenticated user. The
    aggregations are functions of the history; the handlers that read the
    balance are methods because `getUserBalance` records the starting balance
    for an address it has not seen. */
module UserRoutes {
  import opened Wrappers
  import opened Seqs
  import opened GameItems
  import opened GameState

  /** A reply: 401 "Authentication required", or the JSON body. */
  datatype Reply<T> = Unauthorized | Ok(body: T)

  const ClaimAmount: real := 1.5
  const UnclaimedShare: real := 0.1
  const StakingShare: real := 0.3
  const GamingShare: real := 0.6
  const ReferralShare: real := 0.1
  const GrowthPercentage: real := 12.5
  const StakingGrowth: real := 5.2
  const RecentCount: nat := 5
  const GamesPerDay: real := 5.0
  const MaxDaysActive: real := 30.0

  predicate IsLoss(e: HistoryEntry) { e.result == Loss }

  /** `Math.abs(h.amount)`. */
  function Magnitude(e: HistoryEntry): (m: real)
    ensures m >= 0.0 && (m == e.amount || m == -e.amount)
  {
    if e.amount < 0.0 then -e.amount else e.amount
  }

  /** The sum of the amounts of the "win" entries. */
  function TotalWinnings(h: seq<HistoryEntry>): real {
    Sum(AmountOf, Filter(IsWin, h))
  }

  /** The sum of the magnitudes of the "loss" entries. */
  function TotalLosses(h: seq<HistoryEntry>): (t: real)
    ensures t >= 0.0
  {
    var ls := Filter(IsLoss, h);
    SumNonNegative(Magnitude, ls);
    Sum(Magnitude, ls)
  }

  /** Every entry is a win or a loss, so the two counts add up to the length. */
  lemma {:induction false} WinsAndLossesPartition(h: seq<HistoryEntry>)
    ensures Count(IsWin, h) + Count(IsLoss, h) == |h|
  {
    if h != [] {
      WinsAndLossesPartition(h[1..]);
    }
  }

  /** Wins are never negative in a history whose wins are non-negative amounts. */
  lemma {:induction false} WinningsNonNegative(h: seq<HistoryEntry>)
    requires forall i :: 0 <= i < |h| && h[i].result == Win ==> h[i].amount >= 0.0
    ensures TotalWinnings(h) >= 0.0
  {
    var ws := Filter(IsWin, h);
    forall i | 0 <= i < |ws| ensures AmountOf(ws[i]) >= 0.0 {
      assert ws[i] in ws;
    }
    SumNonNegative(AmountOf, ws);
  }

  /** When losses are recorded as non-positive amounts (as settlement does),
      the net profit is the sum of every balance change in the history. */
  lemma {:induction false} NetProfitIsNetFlow(h: seq<HistoryEntry>)
    requires forall i :: 0 <= i < |h| && h[i].result == Loss ==> h[i].amount <= 0.0
    ensures TotalWinnings(h) - TotalLosses(h) == Sum(AmountOf, h)
  {
    if h != [] {
      NetProfitIsNetFlow(h[1..]);
      var x := h[0];
      var single := [x];
      assert h == single + h[1..];
      SumAppend(AmountOf, single, h[1..]);
      var ws := Filter(IsWin, h);
      var ls := Filter(IsLoss, h);
      assert ws == (if IsWin(x) then single else []) + Filter(IsWin, h[1..]);
      assert ls == (if IsLoss(x) then single else []) + Filter(IsLoss, h[1..]);
      SumAppend(AmountOf, if IsWin(x) then single else [], Filter(IsWin, h[1..]));
      SumAppend(Magnitude, if IsLoss(x) then single else [], Filter(IsLoss, h[1..]));
      assert Sum(AmountOf, single) == x.amount;
      assert Sum(Magnitude, single) == Magnitude(x);
    }
  }

  /** Settlement writes each loss as the negated bet, so with non-negative
      bets its losses are non-positive. */
  lemma SettlementLossesNonPositive(gameId: string, ps: seq<Player>, w: Player, winnings: real, now: int)
    requires forall i :: 0 <= i < |ps| ==> ps[i].betAmount >= 0.0
    ensures var es := Settlement(gameId, ps, w, winnings, now);
      forall i :: 0 <= i < |es| && es[i].result == Loss ==> es[i].amount <= 0.0
  {
  }

  // ------------------------------------------------------------- profile

  /** `a / b` for a count out of a total, 0 for an empty total. */
  function Fraction(a: nat, b: nat): (q: real)
    requires a <= b
    ensures 0.0 <= q <= 1.0
    ensures b > 0 ==> q * (b as real) == a as real
    ensures b == 0 ==> q == 0.0
  {
    if b == 0 then 0.0
    else
      var q := a as real / b as real;
      assert q * b as real == a as real;
      assert (1.0 - q) * (b as real) == (b - a) as real;
      q
  }

  datatype Profile = Profile(
    address: string,
    totalGames: nat,
    wins: nat,
    losses: int,
    winRate: real,
    totalWinnings: real,
    totalLosses: real,
    netProfit: real,
    balance: real)

  /** The body of `GET /profile`. */
  function ProfileOf(address: string, history: seq<HistoryEntry>, balance: real): (p: Profile)
    ensures p.address == address && p.balance == balance && p.totalGames == |history|
    ensures p.wins == |Filter(IsWin, history)|
    ensures p.losses == Count(IsLoss, history) && p.wins + p.losses == p.totalGames
    ensures p.winRate == Fraction(p.wins, p.totalGames) && 0.0 <= p.winRate <= 1.0
    ensures p.totalWinnings == TotalWinnings(history) && p.totalLosses == TotalLosses(history) && p.totalLosses >= 0.0
    ensures p.netProfit + p.totalLosses == p.totalWinnings
  {
    var total := |history|;
    var wins := Count(IsWin, history);
    CountIsFilterLength(IsWin, history);
    WinsAndLossesPartition(history);
    var rate := Fraction(wins, total);
    var tw := TotalWinnings(history);
    var tl := TotalLosses(history);
    Profile(address, total, wins, total - wins, rate, tw, tl, tw - tl, balance)
  }

  // ------------------------------------------------------------ earnings

  datatype EarningSources = EarningSources(
    staking: real,
    stakingGrowth: real,
    gaming: real,
    gamesWon: nat,
    referrals: real,
    referralsCount: nat)

  datatype Earnings = Earnings(
    totalEarnings: real,
    unclaimedEarnings: real,
    growthPercentage: real,
    canClaim: bool,
    sources: EarningSources,
    recentTransactions: seq<HistoryEntry>,
    totalDaysActive: real,
    avgDailyEarnings: real)

  /** `Math.max(1, history.length / 5)`: the number of days the history
      is spread over, at five games a day. */
  function ActiveSpan(n: nat): (d: real)
    ensures d >= 1.0 && d >= n as real / GamesPerDay
  {
    var x := n as real / GamesPerDay;
    if x > 1.0 then x else 1.0
  }

  /** `x / d` for a positive divisor. */
  function Quotient(x: real, d: real): (q: real)
    requires d > 0.0
    ensures q * d == x
  {
    x / d
  }

  /** The body of `GET /earnings`; the `period` query is read but unused. */
  function EarningsOf(history: seq<HistoryEntry>): (r: Earnings)
    ensures r.totalEarnings == TotalWinnings(history)
    ensures r.unclaimedEarnings >= 0.0 && r.unclaimedEarnings >= UnclaimedShare * r.totalEarnings
    ensures r.totalEarnings >= 0.0 ==> r.unclaimedEarnings == UnclaimedShare * r.totalEarnings
    ensures r.totalEarnings <= 0.0 ==> r.unclaimedEarnings == 0.0
    ensures r.canClaim <==> r.totalEarnings > 0.0
    ensures r.sources.staking == 0.3 * r.totalEarnings && r.sources.gaming == 0.6 * r.totalEarnings
    ensures r.sources.referrals == 0.1 * r.totalEarnings
    ensures r.sources.staking + r.sources.gaming + r.sources.referrals == r.totalEarnings
    ensures r.growthPercentage == 12.5 && r.sources.stakingGrowth == 5.2
    ensures r.sources.gamesWon == |Filter(IsWin, history)| && r.sources.referralsCount == 0
    ensures |r.recentTransactions| == (if |history| < RecentCount then |history| else RecentCount)
    ensures r.recentTransactions == history[|history| - |r.recentTransactions|..]
    ensures 1.0 <= r.totalDaysActive <= MaxDaysActive
    ensures r.avgDailyEarnings == Quotient(r.totalEarnings, ActiveSpan(|history|))
    ensures |history| as real <= MaxDaysActive * GamesPerDay ==> r.totalDaysActive == ActiveSpan(|history|)
  {
    var tw := TotalWinnings(history);
    CountIsFilterLength(IsWin, history);
    var span := ActiveSpan(|history|);
    var recent := Last(history, RecentCount);
    assert recent == history[|history| - |recent|..];
    Earnings(
      tw,
      if UnclaimedShare * tw > 0.0 then UnclaimedShare * tw else 0.0,
      GrowthPercentage,
      tw > 0.0,
      EarningSources(tw * StakingShare, StakingGrowth, tw * GamingShare, Count(IsWin, history), tw * ReferralShare, 0),
      recent,
      if span < MaxDaysActive then span else MaxDaysActive,
      Quotient(tw, span))
  }

  // ----------------------------------------------------- inventory, claim

  datatype Inventory = Inventory(items: seq<GameItem>, totalItems: nat, legendaryCount: nat, portfolioGrowth: real)

  datatype Claim = Claim(amount: real, success: bool, message: string)

  /** `GET /inventory`: an empty demo inventory for any signed-in user. */
  function InventoryReply(user: Option<string>): (r: Reply<Inventory>)
    ensures r.Ok? <==> user.Some?
    ensures r.Ok? ==> r.body.items == [] && r.body.totalItems == 0 && r.body.legendaryCount == 0
  {
    if user.None? then Unauthorized else Ok(Inventory([], 0, 0, 0.0))
  }

  /** `POST /claim`: a fixed demo amount of 1.5 for any signed-in user; no
      balance changes. */
  function ClaimReply(user: Option<string>): (r: Reply<Claim>)
    ensures r.Ok? <==> user.Some?
    ensures r.Ok? ==> r.body.amount == ClaimAmount && r.body.success
  {
    if user.None? then Unauthorized
    else Ok(Claim(ClaimAmount, true, "Earnings claimed successfully (demo)"))
  }

  // ------------------------------------------------------------ handlers

  /** `GET /history`: the caller's entries, oldest first. */
  function HistoryReply(gs: GameStateManager, user: Option<string>): (r: Reply<seq<HistoryEntry>>)
    reads gs
    ensures r.Ok? <==> user.Some?
    ensures r.Ok? ==> (forall e :: e in r.body <==> e in gs.history && e.address == user.value) && IsSublist(r.body, gs.history)
    ensures r.Ok? ==> |r.body| == Count((e: HistoryEntry) => e.address == user.value, gs.history)
  {
    if user.None? then Unauthorized else Ok(gs.GetUserHistory(user.value))
  }

  /** `GET /profile`. Reading the balance records the starting balance for
      an address seen for the first time; nothing else changes. */
  method HandleGetUserProfile(gs: GameStateManager, user: Option<string>) returns (r: Reply<Profile>)
    requires gs.Valid()
    modifies gs
    ensures gs.Valid()
    ensures user.None? ==> r == Unauthorized && gs.balances == old(gs.balances)
    ensures user.Some? ==>
      && r == Ok(ProfileOf(user.value, gs.GetUserHistory(user.value), BalanceOf(old(gs.balances), user.value)))
      && gs.balances == old(gs.balances)[user.value := BalanceOf(old(gs.balances), user.value)]
    ensures gs.games == old(gs.games) && gs.history == old(gs.history) && gs.stats == old(gs.stats) && gs.timers == old(gs.timers)
  {
    if user.None? {
      return Unauthorized;
    }
    var history := gs.GetUserHistory(user.value);
    var balance := gs.GetUserBalance(user.value);
    r := Ok(ProfileOf(user.value, history, balance));
  }

  /** `GET /earnings`: the balance is read (and so recorded) but not reported. */
  method HandleGetUserEarnings(gs: GameStateManager, user: Option<string>) returns (r: Reply<Earnings>)
    requires gs.Valid()
    modifies gs
    ensures gs.Valid()
    ensures user.None? ==> r == Unauthorized && gs.balances == old(gs.balances)
    ensures user.Some? ==>
      && r == Ok(EarningsOf(gs.GetUserHistory(user.value)))
      && gs.balances == old(gs.balances)[user.value := BalanceOf(old(gs.balances), user.value)]
    ensures gs.games == old(gs.games) && gs.history == old(gs.history) && gs.stats == old(gs.stats) && gs.timers == old(gs.timers)
  {
    if user.None? {
      return Unauthorized;
    }
    var _ := gs.GetUserBalance(user.value);
    var history := gs.GetUserHistory(user.value);
    r := Ok(EarningsOf(history));
  }
}
