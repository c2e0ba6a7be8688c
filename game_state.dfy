/** The in-memory registry of multiplayer pot games and the balance ledger.

    A game is created `Waiting` with a 60 second join window, moves to
    `Starting` when the room fills or the window closes with at least two
    players, and is settled (`Finished`) by a timer five seconds later: one
    player, chosen at random, wins 90 % of the pot and every other player
    loses their bet. A window that closes with fewer than two players cancels
    the game. Balances start at 10 and never go below zero.

    The ambient timers become a multiset of pending `Timer`s that the
    environment fires one at a time (`FireTimer`); the once-a-second interval
    is `Tick`; `Math.random()` and `Date.now()` are parameters. */
module GameState {
  import opened Wrappers
  import opened Seqs
  import opened OrderedMaps

  datatype Status = Waiting | Starting | Active | Finished

  datatype Player = Player(address: string, username: Option<string>, betAmount: real, joinedAt: int)

  datatype Game = Game(
    id: string,
    pot: real,
    minBet: real,
    maxBet: real,
    players: seq<Player>,
    maxPlayers: int,
    timeLeft: int,
    status: Status,
    createdAt: int,
    startedAt: Option<int>,
    finishedAt: Option<int>,
    winner: Option<Player>,
    winnings: Option<real>)

  datatype Outcome = Win | Loss

  datatype HistoryEntry = HistoryEntry(gameId: string, result: Outcome, amount: real, timestamp: int, address: string)

  datatype GlobalStats = GlobalStats(
    totalBets24h: real,
    biggestWin24h: real,
    winRate: real,
    totalGamesPlayed: nat,
    activePlayers: nat)

  /** A pending `setTimeout`: settle a game, or delete it after `delayMs`. */
  datatype Timer = FinishAfter(gameId: string) | DeleteAfter(gameId: string, delayMs: nat)

  const StartingBalance: real := 10.0
  const JoinWindowSeconds: int := 60
  const CountdownSeconds: int := 5
  const WinnerShare: real := 0.9
  const DefaultWinRate: real := 0.47
  const SettledGameLifetimeMs: nat := 60000
  const CancelledGameLifetimeMs: nat := 5000

  const InitialStats: GlobalStats := GlobalStats(0.0, 0.0, DefaultWinRate, 0, 0)

  // ---------------------------------------------------------------- games

  function BetOf(p: Player): real { p.betAmount }

  function TotalBets(ps: seq<Player>): real { Sum(BetOf, ps) }

  predicate IsPlayer(ps: seq<Player>, address: string) {
    exists i :: 0 <= i < |ps| && ps[i].address == address
  }

  ghost predicate DistinctAddresses(ps: seq<Player>) {
    forall i, j :: 0 <= i < j < |ps| ==> ps[i].address != ps[j].address
  }

  /** What every game in the registry satisfies between handler runs. */
  ghost predicate GameOk(g: Game) {
    && g.pot == TotalBets(g.players)
    && DistinctAddresses(g.players)
    && (forall i :: 0 <= i < |g.players| ==> g.minBet <= g.players[i].betAmount <= g.maxBet)
    && (g.players == [] || |g.players| <= g.maxPlayers)
    && g.status != Active
    && (g.status == Waiting ==>
          && g.timeLeft > 0
          && (g.players == [] || |g.players| < g.maxPlayers)
          && g.startedAt.None? && g.finishedAt.None? && g.winner.None?)
    && (g.status == Starting ==>
          g.startedAt.Some? && 0 <= g.timeLeft <= CountdownSeconds && g.finishedAt.None? && g.winner.None?)
    && (g.winner.Some? <==> g.winnings.Some?)
    && (g.winner.Some? ==>
          && g.status == Finished && g.finishedAt.Some?
          && g.winner.value in g.players
          && g.winnings.value == g.pot * WinnerShare)
    && (g.status == Finished && g.finishedAt.Some? && g.players != [] ==> g.winner.Some?)
    && (g.status == Finished && g.finishedAt.None? ==> g.winner.None? && |g.players| <= 1)
  }

  /** The game `createGame` stores. */
  function NewGame(id: string, minBet: real, maxBet: real, maxPlayers: int, now: int): (g: Game)
    ensures GameOk(g)
    ensures g.pot == 0.0 && g.players == [] && g.timeLeft == JoinWindowSeconds && g.status == Waiting
  {
    Game(id, 0.0, minBet, maxBet, [], maxPlayers, JoinWindowSeconds, Waiting, now, None, None, None, None)
  }

  /** The admission test of `joinGame`, in the order the source applies it. */
  predicate JoinAllowed(g: Game, p: Player) {
    && g.minBet <= p.betAmount <= g.maxBet
    && g.status == Waiting
    && |g.players| < g.maxPlayers
    && !IsPlayer(g.players, p.address)
  }

  /** `startGame` on a waiting game. */
  function Started(g: Game, now: int): (s: Game)
    requires g.status == Waiting
  {
    g.(status := Starting, startedAt := Some(now), timeLeft := CountdownSeconds)
  }

  /** The game after an admitted join: the player goes last, the bet goes
      into the pot, and the join that fills the room starts the countdown. */
  function AfterJoin(g: Game, p: Player, now: int): (r: Game)
    requires JoinAllowed(g, p)
    ensures r.players == g.players + [p]
    ensures r.pot == g.pot + p.betAmount
    ensures |r.players| == g.maxPlayers ==> r.status == Starting && r.timeLeft == CountdownSeconds && r.startedAt == Some(now)
    ensures |r.players| < g.maxPlayers ==> r == g.(players := r.players, pot := r.pot)
  {
    var j := g.(players := g.players + [p], pot := g.pot + p.betAmount);
    if |j.players| == j.maxPlayers then Started(j, now) else j
  }

  lemma TotalBetsAppend(ps: seq<Player>, p: Player)
    ensures TotalBets(ps + [p]) == TotalBets(ps) + p.betAmount
  {
    SumAppend(BetOf, ps, [p]);
  }

  /** An admitted join keeps the pot equal to the sum of the bets, the
      addresses distinct and the room within its size. */
  lemma AfterJoinOk(g: Game, p: Player, now: int)
    requires GameOk(g) && JoinAllowed(g, p)
    ensures GameOk(AfterJoin(g, p, now))
  {
    TotalBetsAppend(g.players, p);
    var ps := g.players + [p];
    forall i, j | 0 <= i < j < |ps| ensures ps[i].address != ps[j].address {
      if j == |ps| - 1 {
        assert ps[i] == g.players[i];
      } else {
        assert ps[i] == g.players[i] && ps[j] == g.players[j];
      }
    }
    assert forall i :: 0 <= i < |g.players| ==> ps[i] == g.players[i];
  }

  /** `Math.floor(Math.random() * n)`. */
  function WinnerIndex(u: real, n: nat): (i: nat)
    requires 0.0 <= u < 1.0 && n > 0
    ensures i < n
  {
    var x := u * n as real;
    assert 0.0 <= x < n as real;
    x.Floor
  }

  /** The history entry `finishGame` writes for one player: the winnings for
      the winner, minus the bet for everyone else. */
  function SettleEntry(gameId: string, p: Player, winner: Player, winnings: real, now: int): (e: HistoryEntry)
  {
    if p.address == winner.address then HistoryEntry(gameId, Win, winnings, now, p.address)
    else HistoryEntry(gameId, Loss, -p.betAmount, now, p.address)
  }

  /** All settlement entries, one per player in join order. */
  function Settlement(gameId: string, ps: seq<Player>, winner: Player, winnings: real, now: int): (es: seq<HistoryEntry>)
    ensures |es| == |ps|
    ensures forall i :: 0 <= i < |ps| ==> es[i] == SettleEntry(gameId, ps[i], winner, winnings, now)
  {
    if ps == [] then []
    else [SettleEntry(gameId, ps[0], winner, winnings, now)] + Settlement(gameId, ps[1..], winner, winnings, now)
  }

  /** The game `finishGame` leaves behind, and the entries it writes. */
  function Settled(g: Game, u: real, now: int): (r: Game)
    requires 0.0 <= u < 1.0
  {
    if g.players == [] then g.(status := Finished, finishedAt := Some(now))
    else
      var w := g.players[WinnerIndex(u, |g.players|)];
      g.(status := Finished, finishedAt := Some(now), winner := Some(w), winnings := Some(g.pot * WinnerShare))
  }

  function SettlementOf(g: Game, u: real, now: int): (es: seq<HistoryEntry>)
    requires 0.0 <= u < 1.0
  {
    if g.players == [] then []
    else
      var s := Settled(g, u, now);
      Settlement(g.id, g.players, s.winner.value, s.winnings.value, now)
  }

  lemma SettledOk(g: Game, u: real, now: int)
    requires GameOk(g) && g.status != Finished && 0.0 <= u < 1.0
    ensures GameOk(Settled(g, u, now))
    ensures Settled(g, u, now).players == g.players && Settled(g, u, now).pot == g.pot
    ensures g.players != [] ==> Settled(g, u, now).winner.Some?
  {
  }

  function AmountOf(e: HistoryEntry): real { e.amount }

  predicate IsWin(e: HistoryEntry) { e.result == Win }

  /** With no winner among the players, every entry is a loss of that bet. */
  lemma {:induction false} SettlementWithoutWinner(gameId: string, ps: seq<Player>, w: Player, winnings: real, now: int)
    requires forall i :: 0 <= i < |ps| ==> ps[i].address != w.address
    ensures Sum(AmountOf, Settlement(gameId, ps, w, winnings, now)) == -TotalBets(ps)
    ensures Count(IsWin, Settlement(gameId, ps, w, winnings, now)) == 0
  {
    if ps != [] {
      SettlementWithoutWinner(gameId, ps[1..], w, winnings, now);
    }
  }

  /** The settlement deltas add up to the winnings minus everybody else's bets,
      and exactly one entry is a win. */
  lemma {:induction false} SettlementTotals(gameId: string, ps: seq<Player>, w: Player, winnings: real, now: int)
    requires DistinctAddresses(ps) && w in ps
    ensures Sum(AmountOf, Settlement(gameId, ps, w, winnings, now)) == winnings - (TotalBets(ps) - w.betAmount)
    ensures Count(IsWin, Settlement(gameId, ps, w, winnings, now)) == 1
  {
    var rest := ps[1..];
    assert DistinctAddresses(rest) by {
      forall i, j | 0 <= i < j < |rest| ensures rest[i].address != rest[j].address {
        assert rest[i] == ps[i + 1] && rest[j] == ps[j + 1];
      }
    }
    if ps[0].address == w.address {
      assert ps[0] == w by {
        var k :| 0 <= k < |ps| && ps[k] == w;
        assert k == 0;
      }
      forall i | 0 <= i < |rest| ensures rest[i].address != w.address {
        assert rest[i] == ps[i + 1];
      }
      SettlementWithoutWinner(gameId, rest, w, winnings, now);
    } else {
      assert w in rest by {
        var k :| 0 <= k < |ps| && ps[k] == w;
        assert k != 0 && rest[k - 1] == w;
      }
      SettlementTotals(gameId, rest, w, winnings, now);
    }
  }

  /** One `updateTimers` step for one game. */
  function TickGame(g: Game, now: int): (r: Game)
    ensures r.id == g.id && r.players == g.players && r.pot == g.pot
  {
    if g.status == Waiting && g.timeLeft > 0 then
      var t := g.(timeLeft := g.timeLeft - 1);
      if t.timeLeft == 0 && |g.players| > 1 then Started(t, now)
      else if t.timeLeft == 0 then t.(status := Finished)
      else t
    else if g.status == Starting && g.timeLeft > 0 then g.(timeLeft := g.timeLeft - 1)
    else g
  }

  /** The timer one `updateTimers` step schedules for one game. */
  function TickTimers(g: Game): multiset<Timer>
  {
    if g.status == Waiting && g.timeLeft == 1 then
      if |g.players| > 1 then multiset{FinishAfter(g.id)} else multiset{DeleteAfter(g.id, CancelledGameLifetimeMs)}
    else multiset{}
  }

  /** A tick keeps every game consistent: a closing window with two or more
      players starts the countdown, one with fewer cancels the game without a
      winner or a finish time, a countdown stops at zero and finished games
      are left alone. */
  lemma TickGameOk(g: Game, now: int)
    requires GameOk(g)
    ensures GameOk(TickGame(g, now))
    ensures g.status == Finished ==> TickGame(g, now) == g
    ensures g.status == Waiting && g.timeLeft == 1 && |g.players| <= 1 ==>
              TickGame(g, now).status == Finished && TickGame(g, now).finishedAt.None? && TickGame(g, now).winner.None?
    ensures g.status == Waiting && g.timeLeft == 1 && |g.players| > 1 ==>
              TickGame(g, now).status == Starting && TickGame(g, now).timeLeft == CountdownSeconds
  {
  }

  /** The distinct addresses seated in games that have not finished. */
  function ActiveAddresses(gs: seq<Game>): (s: set<string>)
    ensures forall a :: a in s <==> exists i, j :: 0 <= i < |gs| && gs[i].status != Finished
                                                && 0 <= j < |gs[i].players| && gs[i].players[j].address == a
  {
    if gs == [] then {}
    else
      var here := if gs[0].status != Finished then (set p | p in gs[0].players :: p.address) else {};
      var s := here + ActiveAddresses(gs[1..]);
      assert forall i :: 1 <= i < |gs| ==> gs[i] == gs[1..][i - 1];
      assert forall a :: a in here <==> exists j :: 0 <= j < |gs[0].players| && gs[0].status != Finished
                                                  && gs[0].players[j].address == a;
      s
  }

  // ----------------------------------------------------------------- ledger

  function BalanceOf(balances: map<string, real>, address: string): real
  {
    if address in balances then balances[address] else StartingBalance
  }

  function ClampAtZero(x: real): (r: real)
    ensures r >= 0.0 && r >= x && (x >= 0.0 ==> r == x)
  {
    if x < 0.0 then 0.0 else x
  }

  /** The ledger after `updateUserBalance(address, change)`. */
  function Credit(balances: map<string, real>, address: string, change: real): (m: map<string, real>)
  {
    balances[address := ClampAtZero(BalanceOf(balances, address) + change)]
  }

  ghost predicate LedgerOk(balances: map<string, real>) {
    forall a :: a in balances ==> balances[a] >= 0.0
  }

  /** The ledger after applying history entries in order. */
  function ApplyEntries(balances: map<string, real>, es: seq<HistoryEntry>): map<string, real>
  {
    if es == [] then balances
    else
      var last := es[|es| - 1];
      Credit(ApplyEntries(balances, es[..|es| - 1]), last.address, last.amount)
  }

  /** Applying one more entry credits its amount to its address. */
  lemma ApplyEntriesSnoc(balances: map<string, real>, es: seq<HistoryEntry>, i: nat)
    requires i < |es|
    ensures es[..i + 1] == es[..i] + [es[i]]
    ensures ApplyEntries(balances, es[..i + 1]) == Credit(ApplyEntries(balances, es[..i]), es[i].address, es[i].amount)
  {
    assert es[..i + 1][..i] == es[..i];
  }

  /** Crediting never makes a balance negative, and touches one address. */
  lemma CreditOk(balances: map<string, real>, address: string, change: real)
    requires LedgerOk(balances)
    ensures LedgerOk(Credit(balances, address, change))
    ensures forall a :: a != address ==> BalanceOf(Credit(balances, address, change), a) == BalanceOf(balances, a)
    ensures BalanceOf(Credit(balances, address, change), address) >= BalanceOf(balances, address) + change
  {
  }

  lemma {:induction false} ApplyEntriesOk(balances: map<string, real>, es: seq<HistoryEntry>)
    requires LedgerOk(balances)
    ensures LedgerOk(ApplyEntries(balances, es))
  {
    if es != [] {
      ApplyEntriesOk(balances, es[..|es| - 1]);
      CreditOk(ApplyEntries(balances, es[..|es| - 1]), es[|es| - 1].address, es[|es| - 1].amount);
    }
  }

  /** The statistics after `updateGlobalStats` on a settled game, given the
      games then in the registry. */
  function StatsAfter(s: GlobalStats, g: Game, registry: seq<Game>): (r: GlobalStats)
  {
    var biggest := if g.winnings.Some? && g.winnings.value > s.biggestWin24h then g.winnings.value else s.biggestWin24h;
    s.(totalGamesPlayed := s.totalGamesPlayed + 1,
       totalBets24h := s.totalBets24h + g.pot,
       biggestWin24h := biggest,
       activePlayers := |ActiveAddresses(registry)|)
  }

  lemma TotalBetsNonNegative(g: Game)
    requires GameOk(g) && g.minBet >= 0.0
    ensures g.pot >= 0.0
  {
    SumNonNegative(BetOf, g.players);
  }

  // ------------------------------------------------------------ the manager

  /** Every game is stored under its own id and is consistent. */
  ghost predicate RegistryOk(games: OMap<string, Game>) {
    && games.Valid()
    && (forall id :: id in games.entries ==> games.entries[id].id == id)
    && (forall id {:trigger GameOk(games.entries[id])} :: id in games.entries ==> GameOk(games.entries[id]))
  }

  lemma RegistryPut(games: OMap<string, Game>, id: string, g: Game)
    requires RegistryOk(games) && g.id == id && GameOk(g)
    ensures RegistryOk(games.Put(id, g))
  {
  }

  lemma RegistryRemove(games: OMap<string, Game>, id: string)
    requires RegistryOk(games)
    ensures RegistryOk(games.Remove(id))
  {
  }

  class GameStateManager {
    var games: OMap<string, Game>
    var history: seq<HistoryEntry>
    var balances: map<string, real>
    var stats: GlobalStats
    var timers: multiset<Timer>

    ghost predicate Valid()
      reads this
    {
      && RegistryOk(games)
      && LedgerOk(balances)
      && stats.biggestWin24h >= 0.0 && stats.winRate == DefaultWinRate
    }

    constructor ()
      ensures Valid()
      ensures games == Empty() && history == [] && balances == map[] && stats == InitialStats
      ensures timers == multiset{}
    {
      games := Empty();
      history := [];
      balances := map[];
      stats := InitialStats;
      timers := multiset{};
    }

    function GetGame(id: string): (r: Option<Game>)
      reads this
      ensures r.Some? <==> id in games.entries
      ensures r.Some? ==> r.value == games.entries[id]
    {
      games.Get(id)
    }

    /** `getAllActiveGames`: every unfinished game, in creation order. */
    function GetAllActiveGames(): (r: seq<Game>)
      reads this
      requires Valid()
      ensures forall g :: g in r <==> g.status != Finished && g in games.entries.Values
      ensures IsSublist(r, games.Values())
    {
      var vs := games.Values();
      FilterIsSublist((g: Game) => g.status != Finished, vs);
      forall g ensures g in Filter((g: Game) => g.status != Finished, vs) <==> g.status != Finished && g in games.entries.Values {
        FilterKeepsExactly((g: Game) => g.status != Finished, vs, g);
        if g in games.entries.Values {
          var k :| k in games.entries && games.entries[k] == g;
          var i :| 0 <= i < |games.keys| && games.keys[i] == k;
          assert vs[i] == g;
        }
      }
      Filter((g: Game) => g.status != Finished, vs)
    }

    /** `getUserHistory`: that address's entries, oldest first. */
    function GetUserHistory(address: string): (r: seq<HistoryEntry>)
      reads this
      ensures forall e :: e in r <==> e in history && e.address == address
      ensures IsSublist(r, history)
      ensures |r| == Count((e: HistoryEntry) => e.address == address, history)
    {
      FilterIsSublist((e: HistoryEntry) => e.address == address, history);
      CountIsFilterLength((e: HistoryEntry) => e.address == address, history);
      forall e ensures e in Filter((e: HistoryEntry) => e.address == address, history) <==> e in history && e.address == address {
        FilterKeepsExactly((e: HistoryEntry) => e.address == address, history, e);
      }
      Filter((e: HistoryEntry) => e.address == address, history)
    }

    /** `createGame`, with the fresh UUID and the clock passed in. */
    method CreateGame(id: string, minBet: real, maxBet: real, maxPlayers: int, now: int) returns (g: Game)
      requires Valid()
      modifies this
      ensures Valid()
      ensures g == NewGame(id, minBet, maxBet, maxPlayers, now)
      ensures games == old(games).Put(id, g)
      ensures history == old(history) && balances == old(balances) && stats == old(stats) && timers == old(timers)
    {
      g := NewGame(id, minBet, maxBet, maxPlayers, now);
      games := games.Put(id, g);
    }

    /** `joinGame`: refuses (and changes nothing) unless the game exists and
        admits the player; the join that fills the room starts the game. */
    method JoinGame(id: string, p: Player, now: int) returns (ok: bool)
      requires Valid()
      modifies this
      ensures Valid()
      ensures ok <==> id in old(games.entries) && JoinAllowed(old(games.entries[id]), p)
      ensures !ok ==> games == old(games) && timers == old(timers)
      ensures ok ==> games == old(games).Put(id, AfterJoin(old(games.entries[id]), p, now))
      ensures ok ==> timers == old(timers) + (if games.entries[id].status == Starting then multiset{FinishAfter(id)} else multiset{})
      ensures history == old(history) && balances == old(balances) && stats == old(stats)
    {
      var found := games.Get(id);
      if found.None? {
        return false;
      }
      var g := found.value;
      if p.betAmount < g.minBet || p.betAmount > g.maxBet {
        return false;
      }
      if g.status != Waiting || |g.players| >= g.maxPlayers {
        return false;
      }
      var dup := Find((q: Player) => q.address == p.address, g.players);
      if dup.Some? {
        assert IsPlayer(g.players, p.address) by {
          var k :| 0 <= k < |g.players| && g.players[k] == dup.value;
        }
        return false;
      }
      assert JoinAllowed(g, p);
      ghost var after := AfterJoin(g, p, now);
      AfterJoinOk(g, p, now);
      RegistryPut(games, id, after);
      var j := g.(players := g.players + [p], pot := g.pot + p.betAmount);
      games := games.Put(id, j);
      if |j.players| == j.maxPlayers {
        ghost var mid := games;
        assert mid.entries[id] == j && j.status == Waiting;
        StartGame(id, now);
        assert games == mid.Put(id, Started(j, now));
        assert Started(j, now) == after;
        PutPut(old(games), id, j, after);
        assert games == old(games).Put(id, after);
        assert games.entries[id].status == Starting;
        assert timers == old(timers) + multiset{FinishAfter(id)};
      } else {
        assert j == after;
        assert games == old(games).Put(id, after);
        assert games.entries[id].status == Waiting;
        assert timers == old(timers);
      }
      assert RegistryOk(games);
      assert id in old(games.entries) && JoinAllowed(old(games.entries[id]), p);
      return true;
    }

    /** `startGame`: a waiting game begins its countdown and a settlement timer
        is set; anything else is left alone. */
    method StartGame(id: string, now: int)
      requires games.Valid()
      requires forall k :: k in games.entries ==> games.entries[k].id == k
      modifies this
      ensures id in old(games.entries) && old(games.entries[id]).status == Waiting ==>
                games == old(games).Put(id, Started(old(games.entries[id]), now))
                && timers == old(timers) + multiset{FinishAfter(id)}
      ensures !(id in old(games.entries) && old(games.entries[id]).status == Waiting) ==>
                games == old(games) && timers == old(timers)
      ensures history == old(history) && balances == old(balances) && stats == old(stats)
    {
      var found := games.Get(id);
      if found.None? || found.value.status != Waiting {
        return;
      }
      games := games.Put(id, Started(found.value, now));
      timers := timers + multiset{FinishAfter(id)};
    }

    /** `finishGame`, with `Math.random()` as `u` and the clock as `now`. */
    method FinishGame(id: string, u: real, now: int)
      requires Valid() && 0.0 <= u < 1.0
      modifies this
      ensures Valid()
      ensures !(id in old(games.entries) && old(games.entries[id]).status != Finished) ==>
                games == old(games) && history == old(history) && balances == old(balances)
                && stats == old(stats) && timers == old(timers)
      ensures id in old(games.entries) && old(games.entries[id]).status != Finished ==>
                var g := old(games.entries[id]);
                var s := Settled(g, u, now);
                && games == old(games).Put(id, s)
                && history == old(history) + SettlementOf(g, u, now)
                && balances == ApplyEntries(old(balances), SettlementOf(g, u, now))
                && stats == (if g.players == [] then old(stats) else StatsAfter(old(stats), s, games.Values()))
                && timers == old(timers) + multiset{DeleteAfter(id, SettledGameLifetimeMs)}
    {
      var found := games.Get(id);
      if found.None? || found.value.status == Finished {
        return;
      }
      Settle(found.value, u, now);
    }

    /** `finishGame` once the game `g` is known to be stored and unfinished. */
    method Settle(g: Game, u: real, now: int)
      requires Valid() && 0.0 <= u < 1.0
      requires g.id in games.entries && games.entries[g.id] == g && g.status != Finished
      modifies this
      ensures Valid()
      ensures games == old(games).Put(g.id, Settled(g, u, now))
      ensures history == old(history) + SettlementOf(g, u, now)
      ensures balances == ApplyEntries(old(balances), SettlementOf(g, u, now))
      ensures stats == (if g.players == [] then old(stats) else StatsAfter(old(stats), Settled(g, u, now), games.Values()))
      ensures timers == old(timers) + multiset{DeleteAfter(g.id, SettledGameLifetimeMs)}
    {
      // The one-minute deletion timer touches only `timers`, so it is set first.
      timers := timers + multiset{DeleteAfter(g.id, SettledGameLifetimeMs)};
      var s := Settled(g, u, now);
      assert RegistryOk(games.Put(g.id, s)) by {
        SettledOk(g, u, now);
        RegistryPut(games, g.id, s);
      }
      games := games.Put(g.id, s);
      ghost var es := SettlementOf(g, u, now);
      if g.players != [] {
        assert es == Settlement(s.id, s.players, s.winner.value, s.winnings.value, now);
        PayOut(s, now);
      } else {
        assert es == [];
      }
    }

    /** The part of `finishGame` that runs when the game had players: the
        history entries, the balances and the statistics. */
    method PayOut(s: Game, now: int)
      requires Valid() && s.winner.Some? && s.winnings.Some?
      modifies this
      ensures Valid()
      ensures history == old(history) + Settlement(s.id, s.players, s.winner.value, s.winnings.value, now)
      ensures balances == ApplyEntries(old(balances), Settlement(s.id, s.players, s.winner.value, s.winnings.value, now))
      ensures stats == StatsAfter(old(stats), s, games.Values())
      ensures games == old(games) && timers == old(timers)
    {
      RecordSettlement(s.id, s.players, s.winner.value, s.winnings.value, now);
      ghost var h, b := history, balances;
      UpdateGlobalStats(s);
      assert history == h && balances == b;
    }

    /** The loop of `finishGame` that writes one history entry per player:
        the winner is credited the winnings, everyone else loses their bet. */
    method RecordSettlement(id: string, players: seq<Player>, winner: Player, winnings: real, now: int)
      requires Valid()
      modifies this
      ensures Valid()
      ensures history == old(history) + Settlement(id, players, winner, winnings, now)
      ensures balances == ApplyEntries(old(balances), Settlement(id, players, winner, winnings, now))
      ensures games == old(games) && stats == old(stats) && timers == old(timers)
    {
      ghost var es := Settlement(id, players, winner, winnings, now);
      assert es[..0] == [];
      var i := 0;
      while i < |players|
        invariant 0 <= i <= |players|
        invariant Valid()
        invariant history == old(history) + es[..i]
        invariant balances == ApplyEntries(old(balances), es[..i])
        invariant games == old(games) && stats == old(stats) && timers == old(timers)
      {
        var p := players[i];
        var isWinner := p.address == winner.address;
        var amount := if isWinner then winnings else -p.betAmount;
        assert es[i] == HistoryEntry(id, if isWinner then Win else Loss, amount, now, p.address);
        ApplyEntriesSnoc(old(balances), es, i);
        ghost var before := history;
        AddHistoryEntry(p.address, id, if isWinner then Win else Loss, amount, now);
        assert history == before + [es[i]];
        assert before + [es[i]] == old(history) + es[..i + 1];
        i := i + 1;
      }
      assert es[..|players|] == es;
    }

    /** `updateGlobalStats`. */
    method UpdateGlobalStats(g: Game)
      requires Valid()
      modifies this
      ensures Valid()
      ensures stats == StatsAfter(old(stats), g, games.Values())
      ensures games == old(games) && history == old(history) && balances == old(balances) && timers == old(timers)
    {
      var biggest := stats.biggestWin24h;
      if g.winnings.Some? && g.winnings.value > biggest {
        biggest := g.winnings.value;
      }
      stats := stats.(totalGamesPlayed := stats.totalGamesPlayed + 1,
                      totalBets24h := stats.totalBets24h + g.pot,
                      biggestWin24h := biggest,
                      activePlayers := |ActiveAddresses(games.Values())|);
    }

    /** `getUserBalance`: an unseen address is first given the starting balance. */
    method GetUserBalance(address: string) returns (b: real)
      requires Valid()
      modifies this
      ensures Valid()
      ensures b == BalanceOf(old(balances), address) && b >= 0.0
      ensures balances == old(balances)[address := b]
      ensures games == old(games) && history == old(history) && stats == old(stats) && timers == old(timers)
    {
      if address !in balances {
        balances := balances[address := StartingBalance];
      }
      b := balances[address];
    }

    /** `updateUserBalance`: adds `change`, clamped at zero. */
    method UpdateUserBalance(address: string, change: real) returns (nb: real)
      requires Valid()
      modifies this
      ensures Valid()
      ensures nb == ClampAtZero(BalanceOf(old(balances), address) + change)
      ensures balances == Credit(old(balances), address, change)
      ensures games == old(games) && history == old(history) && stats == old(stats) && timers == old(timers)
    {
      var current := GetUserBalance(address);
      nb := current + change;
      if nb < 0.0 {
        nb := 0.0;
      }
      balances := balances[address := nb];
    }

    /** `addHistoryEntry`: appends one entry and applies its amount. */
    method AddHistoryEntry(address: string, gameId: string, result: Outcome, amount: real, now: int)
      requires Valid()
      modifies this
      ensures Valid()
      ensures history == old(history) + [HistoryEntry(gameId, result, amount, now, address)]
      ensures balances == Credit(old(balances), address, amount)
      ensures games == old(games) && stats == old(stats) && timers == old(timers)
    {
      history := history + [HistoryEntry(gameId, result, amount, now, address)];
      var _ := UpdateUserBalance(address, amount);
    }

    /** `getGlobalStats`: refreshes the count of players in unfinished games. */
    method GetGlobalStats() returns (s: GlobalStats)
      requires Valid()
      modifies this
      ensures Valid()
      ensures s == old(stats).(activePlayers := |ActiveAddresses(games.Values())|) && stats == s
      ensures games == old(games) && history == old(history) && balances == old(balances) && timers == old(timers)
    {
      stats := stats.(activePlayers := |ActiveAddresses(games.Values())|);
      s := stats;
    }

    /** `updateTimers`: one tick for every game, in creation order. Every game
        stays consistent. */
    method Tick(now: int)
      requires Valid()
      modifies this
      ensures Valid()
      ensures games.keys == old(games.keys)
      ensures forall k :: k in old(games.entries) ==> k in games.entries && games.entries[k] == TickGame(old(games.entries[k]), now)
      ensures games.entries.Keys == old(games.entries.Keys)
      ensures timers == old(timers) + TickTimersOf(old(games.entries), old(games.keys))
      ensures history == old(history) && balances == old(balances) && stats == old(stats)
    {
      ghost var before := games.entries;
      TickAll(now);
      TickedUpToAll(before, old(games.keys), now);
      forall k | k in games.entries ensures games.entries[k].id == k && GameOk(games.entries[k]) {
        TickGameOk(before[k], now);
      }
    }

    /** The loop of `updateTimers`. */
    method TickAll(now: int)
      requires games.Valid()
      requires forall k :: k in games.entries ==> games.entries[k].id == k
      modifies this
      ensures games.Valid() && games.keys == old(games.keys)
      ensures games.entries == TickedUpTo(old(games.entries), old(games.keys), now)
      ensures timers == old(timers) + TickTimersOf(old(games.entries), old(games.keys))
      ensures history == old(history) && balances == old(balances) && stats == old(stats)
    {
      var keys := games.keys;
      ghost var before := games.entries;
      var i := 0;
      while i < |keys|
        invariant 0 <= i <= |keys|
        invariant games.keys == keys && games.Valid()
        invariant games.entries == TickedUpTo(before, keys[..i], now)
        invariant forall k :: k in games.entries ==> games.entries[k].id == k
        invariant timers == old(timers) + TickTimersOf(before, keys[..i])
        invariant history == old(history) && balances == old(balances) && stats == old(stats)
      {
        var k := keys[i];
        TickStep(before, keys, i, now);
        TickOne(k, now);
        i := i + 1;
      }
      assert keys[..|keys|] == keys;
    }

    /** The body of `updateTimers` for the game stored under `k`. */
    method TickOne(k: string, now: int)
      requires games.Valid() && k in games.entries
      requires forall k :: k in games.entries ==> games.entries[k].id == k
      modifies this
      ensures games == old(games).Put(k, TickGame(old(games.entries[k]), now))
      ensures games.Valid() && games.keys == old(games.keys)
      ensures games.entries == old(games.entries)[k := TickGame(old(games.entries[k]), now)]
      ensures timers == old(timers) + TickTimers(old(games.entries[k]))
      ensures history == old(history) && balances == old(balances) && stats == old(stats)
    {
      var g := games.entries[k];
      if g.status == Waiting && g.timeLeft > 0 {
        var t := g.(timeLeft := g.timeLeft - 1);
        games := games.Put(k, t);
        if t.timeLeft == 0 && |t.players| > 1 {
          StartGame(t.id, now);
          PutPut(old(games), k, t, Started(t, now));
        } else if t.timeLeft == 0 {
          games := games.Put(k, t.(status := Finished));
          PutPut(old(games), k, t, t.(status := Finished));
          timers := timers + multiset{DeleteAfter(k, CancelledGameLifetimeMs)};
        }
      } else if g.status == Starting && g.timeLeft > 0 {
        games := games.Put(k, g.(timeLeft := g.timeLeft - 1));
      } else {
        assert games == old(games).Put(k, g) by {
          assert games.entries[k := g] == games.entries;
        }
      }
    }

    /** Fires one pending timer: a settlement runs `finishGame`, a deletion
        removes the game from the registry. */
    method FireTimer(t: Timer, u: real, now: int)
      requires Valid() && t in timers && 0.0 <= u < 1.0
      modifies this
      ensures Valid()
      ensures t.DeleteAfter? ==>
                games == old(games).Remove(t.gameId) && timers == old(timers) - multiset{t}
                && history == old(history) && balances == old(balances) && stats == old(stats)
    {
      timers := timers - multiset{t};
      match t
      case FinishAfter(id) =>
        FinishGame(id, u, now);
      case DeleteAfter(id, _) =>
        games := games.Remove(id);
    }
  }

  /** The registry after ticking the games under `keys`, in that order. */
  function TickedUpTo(entries: map<string, Game>, keys: seq<string>, now: int): (r: map<string, Game>)
    requires forall k :: k in keys ==> k in entries
    ensures r.Keys == entries.Keys
  {
    if keys == [] then entries
    else
      var k := keys[|keys| - 1];
      TickedUpTo(entries, keys[..|keys| - 1], now)[k := TickGame(entries[k], now)]
  }

  /** A game whose key has not been reached yet is untouched. */
  lemma {:induction false} TickedUpToOutside(entries: map<string, Game>, keys: seq<string>, now: int, k: string)
    requires forall x :: x in keys ==> x in entries
    requires k in entries && k !in keys
    ensures TickedUpTo(entries, keys, now)[k] == entries[k]
  {
    if keys != [] {
      TickedUpToOutside(entries, keys[..|keys| - 1], now, k);
    }
  }

  /** One more key of the registry ticked: its game is still untouched
      before, and its tick and its timers are added. */
  lemma TickStep(entries: map<string, Game>, keys: seq<string>, i: nat, now: int)
    requires forall x :: x in keys ==> x in entries
    requires Distinct(keys) && i < |keys|
    ensures forall x :: x in keys[..i + 1] ==> x in entries
    ensures TickedUpTo(entries, keys[..i], now)[keys[i]] == entries[keys[i]]
    ensures TickedUpTo(entries, keys[..i + 1], now)
      == TickedUpTo(entries, keys[..i], now)[keys[i] := TickGame(entries[keys[i]], now)]
    ensures TickTimersOf(entries, keys[..i + 1]) == TickTimersOf(entries, keys[..i]) + TickTimers(entries[keys[i]])
  {
    var k := keys[i];
    assert keys[..i + 1][..i] == keys[..i] && keys[..i + 1][i] == k;
    assert k !in keys[..i];
    TickedUpToOutside(entries, keys[..i], now, k);
  }

  /** Ticking every key once ticks each game exactly once. */
  lemma {:induction false} TickedUpToAll(entries: map<string, Game>, keys: seq<string>, now: int)
    requires forall x :: x in keys ==> x in entries
    requires Distinct(keys)
    ensures forall k :: k in keys ==> TickedUpTo(entries, keys, now)[k] == TickGame(entries[k], now)
  {
    if keys != [] {
      var init := keys[..|keys| - 1];
      assert Distinct(init);
      TickedUpToAll(entries, init, now);
      forall k | k in keys ensures TickedUpTo(entries, keys, now)[k] == TickGame(entries[k], now) {
        if k != keys[|keys| - 1] {
          var j :| 0 <= j < |keys| && keys[j] == k;
          assert k in init;
        }
      }
    }
  }

  /** The timers one tick schedules across the registry, in key order. */
  function TickTimersOf(entries: map<string, Game>, keys: seq<string>): multiset<Timer>
    requires forall k :: k in keys ==> k in entries
  {
    if keys == [] then multiset{}
    else TickTimersOf(entries, keys[..|keys| - 1]) + TickTimers(entries[keys[|keys| - 1]])
  }
}
