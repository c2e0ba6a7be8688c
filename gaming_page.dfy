/** The lobby page: the list of games it shows is kept up to date from the
    server's socket messages, replacing the list on "games:list" and
    upserting on "game:created" and "game:updated"; a game offers a join
    button while it is waiting and not full, and joining bets the game's
    minimum. */
module GamingPage {
  import opened Wrappers
  import opened GameState
  import opened GameSocketServer

  predicate HasId(games: seq<ClientGame>, id: string) {
    exists i :: 0 <= i < |games| && games[i].id == id
  }

  /** `prev.find(g => g.id === id) ? prev.map(replace) : [...prev, game]`. */
  function Upsert(prev: seq<ClientGame>, game: ClientGame): (r: seq<ClientGame>)
    ensures HasId(prev, game.id) ==>
      |r| == |prev| && forall i :: 0 <= i < |prev| ==> r[i] == (if prev[i].id == game.id then game else prev[i])
    ensures !HasId(prev, game.id) ==> r == prev + [game]
    ensures game in r
  {
    if HasId(prev, game.id) then
      var r := seq(|prev|, i requires 0 <= i < |prev| => if prev[i].id == game.id then game else prev[i]);
      var k :| 0 <= k < |prev| && prev[k].id == game.id;
      assert r[k] == game;
      r
    else prev + [game]
  }

  /** The games list after a socket message. */
  function OnLobbyMessage(prev: seq<ClientGame>, m: ServerMsg): (r: seq<ClientGame>)
    ensures m.GamesList? ==> r == m.games
    ensures m.GameCreated? || m.GameUpdated? ==> r == Upsert(prev, m.game)
    ensures !(m.GamesList? || m.GameCreated? || m.GameUpdated?) ==> r == prev
  {
    match m
    case GamesList(games) => games
    case GameCreated(game) => Upsert(prev, game)
    case GameUpdated(game) => Upsert(prev, game)
    case _ => prev
  }

  predicate DistinctIds(games: seq<ClientGame>) {
    forall i, j :: 0 <= i < j < |games| ==> games[i].id != games[j].id
  }

  /** Upserting keeps the ids distinct and leaves exactly one game with that
      id, the new one. */
  lemma UpsertKeepsIdsDistinct(prev: seq<ClientGame>, game: ClientGame)
    requires DistinctIds(prev)
    ensures DistinctIds(Upsert(prev, game))
    ensures forall i :: 0 <= i < |Upsert(prev, game)| && Upsert(prev, game)[i].id == game.id ==> Upsert(prev, game)[i] == game
  {
  }

  /** Receiving the same update twice changes nothing more. */
  lemma UpsertIdempotent(prev: seq<ClientGame>, game: ClientGame)
    ensures Upsert(Upsert(prev, game), game) == Upsert(prev, game)
  {
    var once := Upsert(prev, game);
    assert HasId(once, game.id) by {
      var k :| 0 <= k < |once| && once[k] == game;
    }
  }

  /** The join button's condition. */
  predicate ShowsJoin(g: ClientGame) {
    g.status == Waiting && g.players < g.maxPlayers
  }

  /** `handleJoinGame`: the bet is the lower end of the bet range. */
  function JoinBet(g: ClientGame): real {
    g.betRange.0
  }

  /** A join from the button on a game the server describes passes the
      server's admission test, provided the game's bet range is not empty
      (creation requires a maximum above the minimum) and the player has not
      joined it already. */
  lemma JoinButtonBetAdmitted(g: Game, p: Player)
    requires g.minBet <= g.maxBet
    requires ShowsJoin(FormatGame(g)) && p.betAmount == JoinBet(FormatGame(g))
    requires !IsPlayer(g.players, p.address)
    ensures JoinAllowed(g, p)
  {
  }
}
