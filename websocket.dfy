/** The game WebSocket server on `/game`.

    Each accepted socket is a connection with an id; the server keeps them in
    `conns` and the authenticated ones also in `clients`, keyed by wallet
    address. What the server sends a socket is appended to its `outbox`,
    provided the socket is still open. The socket library's events
    (`message`, `pong`, `close`) and the two intervals (the 30 second
    heartbeat and the once-a-second broadcast) are methods the environment
    calls; the token check, the clock and the fresh game id are parameters. */
module GameSocketServer {
  import opened Wrappers
  import opened Seqs
  import opened OrderedMaps
  import opened GameState

  type ConnId = nat

  /** A game as the server shows it to clients. */
  datatype ClientGame = ClientGame(
    id: string,
    pot: real,
    betRange: (real, real),
    players: nat,
    maxPlayers: int,
    timeLeft: int,
    status: Status)

  datatype ServerMsg =
    | AuthSuccess(address: string)
    | GamesList(games: seq<ClientGame>)
    | GameCreated(game: ClientGame)
    | PlayerJoined(gameId: string, address: string, betAmount: real, game: ClientGame)
    | GameUpdated(game: ClientGame)
    | GameStarting(gameId: string)
    | GameResult(gameId: string, winnerAddress: string, winnerName: string, winnings: real)
    | ErrorMsg(message: string)

  /** The `data` of a client message; an absent field is `None`. */
  datatype Payload = Payload(
    token: Option<string>,
    betRange: Option<(real, real)>,
    maxPlayers: Option<int>,
    gameId: Option<string>,
    betAmount: Option<real>)

  /** A frame as received: JSON with a `type`, or text that does not parse. */
  datatype Inbound = Parsed(kind: string, data: Payload) | Unparsable

  datatype Conn = Conn(userAddress: Option<string>, isAlive: bool, open: bool, outbox: seq<ServerMsg>)

  /** JavaScript truthiness of the optional fields the handlers test. */
  predicate PresentText(s: Option<string>) { s.Some? && s.value != "" }
  predicate PresentInt(x: Option<int>) { x.Some? && x.value != 0 }
  predicate PresentReal(x: Option<real>) { x.Some? && x.value != 0.0 }

  /** `ws.userAddress` is set to a non-empty address. */
  predicate Authed(c: Conn) { PresentText(c.userAddress) }

  function FormatGame(g: Game): (c: ClientGame)
    ensures c.id == g.id && c.pot == g.pot && c.betRange == (g.minBet, g.maxBet)
    ensures c.players == |g.players| && c.maxPlayers == g.maxPlayers
    ensures c.timeLeft == g.timeLeft && c.status == g.status
  {
    ClientGame(g.id, g.pot, (g.minBet, g.maxBet), |g.players|, g.maxPlayers, g.timeLeft, g.status)
  }

  function FormatGames(gs: seq<Game>): (cs: seq<ClientGame>)
    ensures |cs| == |gs| && forall i :: 0 <= i < |gs| ==> cs[i] == FormatGame(gs[i])
  {
    seq(|gs|, i requires 0 <= i < |gs| => FormatGame(gs[i]))
  }

  // ------------------------------------------------------------- delivery

  /** `send`: only a socket whose state is OPEN gets the frame. */
  function Deliver(c: Conn, m: ServerMsg): Conn {
    if c.open then c.(outbox := c.outbox + [m]) else c
  }

  predicate AllIn(targets: seq<ConnId>, conns: map<ConnId, Conn>) {
    forall i :: 0 <= i < |targets| ==> targets[i] in conns
  }

  /** `m` sent to each target in turn (a socket listed twice gets it twice). */
  function DeliverAll(conns: map<ConnId, Conn>, targets: seq<ConnId>, m: ServerMsg): (r: map<ConnId, Conn>)
    requires AllIn(targets, conns)
    ensures r.Keys == conns.Keys
  {
    if targets == [] then conns
    else
      var prev := DeliverAll(conns, targets[..|targets| - 1], m);
      var t := targets[|targets| - 1];
      prev[t := Deliver(prev[t], m)]
  }

  /** One more target: the broadcast to `targets[..i + 1]` is the one to
      `targets[..i]` followed by a delivery to `targets[i]`. */
  lemma DeliverAllSnoc(conns: map<ConnId, Conn>, targets: seq<ConnId>, i: nat, m: ServerMsg)
    requires AllIn(targets, conns) && i < |targets|
    ensures AllIn(targets[..i], conns) && AllIn(targets[..i + 1], conns)
    ensures var prev := DeliverAll(conns, targets[..i], m);
      DeliverAll(conns, targets[..i + 1], m) == prev[targets[i] := Deliver(prev[targets[i]], m)]
  {
    assert targets[..i + 1][..i] == targets[..i];
  }

  /** Each message of `ms` in order, each to every target. */
  function DeliverEach(conns: map<ConnId, Conn>, targets: seq<ConnId>, ms: seq<ServerMsg>): (r: map<ConnId, Conn>)
    requires AllIn(targets, conns)
    ensures r.Keys == conns.Keys
  {
    if ms == [] then conns
    else DeliverAll(DeliverEach(conns, targets, ms[..|ms| - 1]), targets, ms[|ms| - 1])
  }

  function Repeat(m: ServerMsg, n: nat): (r: seq<ServerMsg>)
    ensures |r| == n && forall i :: 0 <= i < n ==> r[i] == m
  {
    seq(n, _ => m)
  }

  /** Every message of `ms`, each repeated `n` times. */
  function RepeatEach(ms: seq<ServerMsg>, n: nat): (r: seq<ServerMsg>)
    ensures |r| == n * |ms|
  {
    if ms == [] then [] else RepeatEach(ms[..|ms| - 1], n) + Repeat(ms[|ms| - 1], n)
  }

  lemma {:induction false} RepeatOnce(ms: seq<ServerMsg>)
    ensures RepeatEach(ms, 1) == ms
  {
    if ms != [] {
      RepeatOnce(ms[..|ms| - 1]);
      assert ms == ms[..|ms| - 1] + [ms[|ms| - 1]];
    }
  }

  /** A broadcast leaves closed sockets alone and appends the message to an
      open one once per time it is listed among the targets. */
  lemma {:induction false} DeliverAllEffect(conns: map<ConnId, Conn>, targets: seq<ConnId>, m: ServerMsg, id: ConnId)
    requires AllIn(targets, conns) && id in conns
    ensures DeliverAll(conns, targets, m)[id] ==
      if conns[id].open then conns[id].(outbox := conns[id].outbox + Repeat(m, multiset(targets)[id])) else conns[id]
  {
    var c := conns[id];
    if targets == [] {
      assert c.outbox + Repeat(m, 0) == c.outbox;
    } else {
      var init := targets[..|targets| - 1];
      var t := targets[|targets| - 1];
      assert targets == init + [t];
      DeliverAllEffect(conns, init, m, id);
      var before: multiset<ConnId> := multiset(init);
      var k := before[id];
      if t == id {
        assert multiset(targets)[id] == k + 1;
        if c.open {
          assert c.outbox + Repeat(m, k) + [m] == c.outbox + Repeat(m, k + 1);
        }
      } else {
        assert multiset(targets)[id] == k;
      }
    }
  }

  lemma {:induction false} DeliverEachEffect(conns: map<ConnId, Conn>, targets: seq<ConnId>, ms: seq<ServerMsg>, id: ConnId)
    requires AllIn(targets, conns) && id in conns
    ensures DeliverEach(conns, targets, ms)[id] ==
      if conns[id].open then conns[id].(outbox := conns[id].outbox + RepeatEach(ms, multiset(targets)[id])) else conns[id]
  {
    var c := conns[id];
    var n := multiset(targets)[id];
    if ms == [] {
      assert c.outbox + [] == c.outbox;
    } else {
      var init := ms[..|ms| - 1];
      DeliverEachEffect(conns, targets, init, id);
      DeliverAllEffect(DeliverEach(conns, targets, init), targets, ms[|ms| - 1], id);
      if c.open {
        assert c.outbox + RepeatEach(init, n) + Repeat(ms[|ms| - 1], n) == c.outbox + RepeatEach(ms, n);
      }
    }
  }

  lemma {:induction false} DeliverEachAppend(conns: map<ConnId, Conn>, targets: seq<ConnId>, a: seq<ServerMsg>, b: seq<ServerMsg>)
    requires AllIn(targets, conns)
    ensures DeliverEach(conns, targets, a + b) == DeliverEach(DeliverEach(conns, targets, a), targets, b)
  {
    if b == [] {
      assert a + b == a;
    } else {
      var init, last := b[..|b| - 1], b[|b| - 1];
      DeliverEachAppend(conns, targets, a, init);
      assert (a + b)[..|a + b| - 1] == a + init;
      assert (a + b)[|a + b| - 1] == last;
      var mid := DeliverEach(conns, targets, a);
      assert AllIn(targets, mid);
      assert DeliverEach(mid, targets, b) == DeliverAll(DeliverEach(mid, targets, init), targets, last);
    }
  }

  // ----------------------------------------------------- the 1 s broadcast

  /** `game:updated` for every active game, followed by `game:starting` for a
      starting game whose `startedAt` is falsy. */
  function GameUpdates(g: Game): (ms: seq<ServerMsg>)
    ensures 1 <= |ms| <= 2 && ms[0] == GameUpdated(FormatGame(g))
    ensures |ms| == 2 <==> g.status == Starting && (g.startedAt.None? || g.startedAt.value == 0)
    ensures |ms| == 2 ==> ms[1] == GameStarting(g.id)
  {
    [GameUpdated(FormatGame(g))]
      + (if g.status == Starting && (g.startedAt.None? || g.startedAt.value == 0) then [GameStarting(g.id)] else [])
  }

  /** A finished game whose `finishedAt` is set and less than 5000 ms ago. */
  predicate RecentlyFinished(now: int, g: Game) {
    g.status == Finished && g.finishedAt.Some? && g.finishedAt.value != 0 && now - g.finishedAt.value < 5000
  }

  /** The name shown for a winner: the username, or the first 8 characters of
      the address when there is none. */
  function DisplayName(p: Player): (s: string)
    ensures p.username.Some? && p.username.value != "" ==> s == p.username.value
    ensures !(p.username.Some? && p.username.value != "") ==> s == p.address[..if |p.address| < 8 then |p.address| else 8]
  {
    if p.username.Some? && p.username.value != "" then p.username.value
    else p.address[..if |p.address| < 8 then |p.address| else 8]
  }

  /** `game:result` for a recently finished game with a winner and non-zero winnings. */
  function ResultUpdate(g: Game): (ms: seq<ServerMsg>)
    ensures |ms| <= 1
    ensures |ms| == 1 <==> g.winner.Some? && g.winnings.Some? && g.winnings.value != 0.0
    ensures |ms| == 1 ==> ms[0] == GameResult(g.id, g.winner.value.address, DisplayName(g.winner.value), g.winnings.value)
  {
    if g.winner.Some? && g.winnings.Some? && g.winnings.value != 0.0 then
      [GameResult(g.id, g.winner.value.address, DisplayName(g.winner.value), g.winnings.value)]
    else []
  }

  function Concat(f: Game -> seq<ServerMsg>, gs: seq<Game>): seq<ServerMsg> {
    if gs == [] then [] else Concat(f, gs[..|gs| - 1]) + f(gs[|gs| - 1])
  }

  lemma {:induction false} InConcat(f: Game -> seq<ServerMsg>, gs: seq<Game>, m: ServerMsg)
    ensures m in Concat(f, gs) <==> exists i :: 0 <= i < |gs| && m in f(gs[i])
  {
    if gs != [] {
      var init := gs[..|gs| - 1];
      InConcat(f, init, m);
      if m in Concat(f, gs) && m !in f(gs[|gs| - 1]) {
        var i :| 0 <= i < |init| && m in f(init[i]);
        assert gs[i] == init[i];
      }
      if exists i :: 0 <= i < |gs| && m in f(gs[i]) {
        var i :| 0 <= i < |gs| && m in f(gs[i]);
        if i < |gs| - 1 {
          assert init[i] == gs[i];
        }
      }
    }
  }

  function RecentlyFinishedOf(now: int, registry: seq<Game>): seq<Game> {
    Filter((g: Game) => RecentlyFinished(now, g), registry)
  }

  /** Everything one run of `broadcastGameUpdates` sends, in order. */
  function BroadcastMessages(active: seq<Game>, registry: seq<Game>, now: int): seq<ServerMsg> {
    Concat(GameUpdates, active) + Concat(ResultUpdate, RecentlyFinishedOf(now, registry))
  }

  /** `game:starting` is only sent for a starting game whose `startedAt` is
      falsy; `startGame` always stamps a positive clock reading, so with a
      clock past the epoch the update broadcast is exactly one
      `game:updated` per active game. */
  lemma {:induction false} UpdatesAreExactlyGameUpdated(active: seq<Game>, m: ServerMsg)
    requires forall i :: 0 <= i < |active| ==> active[i].startedAt.Some? ==> active[i].startedAt.value > 0
    requires forall i :: 0 <= i < |active| ==> active[i].status == Starting ==> active[i].startedAt.Some?
    ensures m in Concat(GameUpdates, active) <==> exists i :: 0 <= i < |active| && m == GameUpdated(FormatGame(active[i]))
  {
    InConcat(GameUpdates, active, m);
    if exists i :: 0 <= i < |active| && m == GameUpdated(FormatGame(active[i])) {
      var i :| 0 <= i < |active| && m == GameUpdated(FormatGame(active[i]));
      assert m in GameUpdates(active[i]);
    }
    if m in Concat(GameUpdates, active) {
      var i :| 0 <= i < |active| && m in GameUpdates(active[i]);
      assert |GameUpdates(active[i])| == 1;
    }
  }

  /** A `game:result` goes out for a game exactly when it finished less than
      five seconds ago with a winner and non-zero winnings. */
  lemma {:induction false} ResultsExactly(registry: seq<Game>, now: int, m: ServerMsg)
    ensures m in Concat(ResultUpdate, RecentlyFinishedOf(now, registry)) <==>
      exists g :: g in registry && RecentlyFinished(now, g) && ResultUpdate(g) == [m]
  {
    var fs := RecentlyFinishedOf(now, registry);
    InConcat(ResultUpdate, fs, m);
    if m in Concat(ResultUpdate, fs) {
      var i :| 0 <= i < |fs| && m in ResultUpdate(fs[i]);
      ResultOfRecent(registry, now, m, fs[i]);
    }
    if exists g :: g in registry && RecentlyFinished(now, g) && ResultUpdate(g) == [m] {
      var g :| g in registry && RecentlyFinished(now, g) && ResultUpdate(g) == [m];
      RecentHasResult(registry, now, m, g);
    }
  }

  lemma ResultOfRecent(registry: seq<Game>, now: int, m: ServerMsg, g: Game)
    requires g in RecentlyFinishedOf(now, registry) && m in ResultUpdate(g)
    ensures g in registry && RecentlyFinished(now, g) && ResultUpdate(g) == [m]
  {
    FilterKeepsExactly((g: Game) => RecentlyFinished(now, g), registry, g);
  }

  lemma RecentHasResult(registry: seq<Game>, now: int, m: ServerMsg, g: Game)
    requires g in registry && RecentlyFinished(now, g) && ResultUpdate(g) == [m]
    ensures exists i :: 0 <= i < |RecentlyFinishedOf(now, registry)| && m in ResultUpdate(RecentlyFinishedOf(now, registry)[i])
  {
    var fs := RecentlyFinishedOf(now, registry);
    FilterKeepsExactly((g: Game) => RecentlyFinished(now, g), registry, g);
    var i :| 0 <= i < |fs| && fs[i] == g;
    assert m in ResultUpdate(fs[i]);
  }

  // ----------------------------------------------------------- validation

  /** The refusal `game:create` meets first, in the order the handler tests. */
  function CreateError(c: Conn, d: Payload): (e: Option<string>)
    ensures e.Some? ==> e.value in {"Authentication required", "betRange and maxPlayers are required",
                                    "maxPlayers must be between 2 and 10", "Invalid bet range"}
  {
    if !Authed(c) then Some("Authentication required")
    else if d.betRange.None? || !PresentInt(d.maxPlayers) then Some("betRange and maxPlayers are required")
    else if d.maxPlayers.value < 2 || d.maxPlayers.value > 10 then Some("maxPlayers must be between 2 and 10")
    else if d.betRange.value.0 <= 0.0 || d.betRange.value.1 <= d.betRange.value.0 then Some("Invalid bet range")
    else None
  }

  /** A game is created exactly for an authenticated socket asking for 2 to 10
      players and a bet range with a positive lower end below its upper end. */
  lemma CreateAccepted(c: Conn, d: Payload)
    ensures CreateError(c, d).None? <==>
      && Authed(c) && d.betRange.Some? && d.maxPlayers.Some?
      && 2 <= d.maxPlayers.value <= 10
      && 0.0 < d.betRange.value.0 < d.betRange.value.1
  {
  }

  /** The refusal `game:join` meets before reaching the game state. */
  function JoinRequestError(c: Conn, d: Payload, registry: OMap<string, Game>): (e: Option<string>)
    ensures e.None? ==> Authed(c) && PresentText(d.gameId) && PresentReal(d.betAmount) && d.gameId.value in registry.entries
  {
    if !Authed(c) then Some("Authentication required")
    else if !PresentText(d.gameId) || !PresentReal(d.betAmount) then Some("gameId and betAmount are required")
    else if d.gameId.value !in registry.entries then Some("Game not found")
    else None
  }

  const JoinRefused: string := "Failed to join game (invalid bet amount or game full)"

  // ------------------------------------------------------------ closing

  /** The `close` handler as written: it drops the address binding whatever
      socket it now points at. */
  function CloseAsWritten(clients: OMap<string, ConnId>, c: Conn): (r: OMap<string, ConnId>)
    requires clients.Valid()
    ensures r.Valid()
    ensures Authed(c) ==> r.entries == clients.entries - {c.userAddress.value}
    ensures !Authed(c) ==> r == clients
  {
    if Authed(c) then clients.Remove(c.userAddress.value) else clients
  }

  /** A second tab's socket re-binds the address; when the first tab's socket
      closes afterwards, the as-written handler unbinds the live second
      socket, which then misses every broadcast. */
  lemma AsWrittenCloseUnbindsNewerSocket()
    ensures
      var first := Conn(Some("addr"), true, true, []);
      var clients := Empty<string, ConnId>().Put("addr", 0).Put("addr", 1);
      clients.Get("addr") == Some(1) && CloseAsWritten(clients, first).Get("addr") == None
  {
  }

  /** The `close` handler with the binding removed only when it is this socket's. */
  function Close(clients: OMap<string, ConnId>, id: ConnId, c: Conn): (r: OMap<string, ConnId>)
    requires clients.Valid()
    ensures r.Valid()
  {
    if Authed(c) && clients.Get(c.userAddress.value) == Some(id) then clients.Remove(c.userAddress.value)
    else clients
  }

  /** Closing a socket never touches a binding of another socket, and removes
      the binding of its own address when that binding is this socket. */
  lemma CloseKeepsOthers(clients: OMap<string, ConnId>, id: ConnId, c: Conn, a: string)
    requires clients.Valid()
    ensures clients.Get(a).Some? && clients.Get(a).value != id ==> Close(clients, id, c).Get(a) == clients.Get(a)
    ensures Close(clients, id, c).Get(a).Some? ==> Close(clients, id, c).Get(a) == clients.Get(a)
    ensures Authed(c) && a == c.userAddress.value ==> Close(clients, id, c).Get(a) != Some(id)
  {
  }

  /** One heartbeat round for one socket: a socket that has not answered the
      previous ping is terminated, any other open one is marked not alive and
      pinged. */
  function HeartbeatConn(c: Conn): (r: Conn)
    ensures r.userAddress == c.userAddress && r.outbox == c.outbox
    ensures !c.open ==> r == c
    ensures c.open && !c.isAlive ==> !r.open
    ensures c.open && c.isAlive ==> r.open && !r.isAlive
  {
    if !c.open then c else if !c.isAlive then c.(open := false) else c.(isAlive := false)
  }

  function Ponged(c: Conn): (r: Conn)
    ensures r.isAlive && r.open == c.open
  {
    c.(isAlive := true)
  }

  /** A live socket survives the next two heartbeat rounds exactly when it
      answers the first round's ping. */
  lemma {:induction false} HeartbeatTwoRounds(c: Conn)
    requires c.open && c.isAlive
    ensures !HeartbeatConn(HeartbeatConn(c)).open
    ensures HeartbeatConn(Ponged(HeartbeatConn(c))).open
  {
  }

  class GameWebSocketServer {
    var clients: OMap<string, ConnId>
    var conns: map<ConnId, Conn>

    ghost predicate Valid()
      reads this
    {
      clients.Valid() && forall a :: a in clients.entries ==> clients.entries[a] in conns
    }

    lemma TargetsIn()
      requires Valid()
      ensures AllIn(clients.Values(), conns)
    {
    }

    constructor ()
      ensures Valid() && clients == Empty() && conns == map[]
    {
      clients := Empty();
      conns := map[];
    }

    /** `connection`: a new socket starts alive and unauthenticated. */
    method Connect(id: ConnId)
      requires Valid() && id !in conns
      modifies this
      ensures Valid()
      ensures clients == old(clients)
      ensures conns == old(conns)[id := Conn(None, true, true, [])]
    {
      conns := conns[id := Conn(None, true, true, [])];
    }

    /** `getConnectedUsers`: the number of bound addresses. */
    function GetConnectedUsers(): (n: nat)
      reads this
      requires Valid()
      ensures n == |clients.entries.Keys|
    {
      assert clients.entries.Keys == set i | 0 <= i < |clients.keys| :: clients.keys[i];
      DistinctCard(clients.keys);
      |clients.keys|
    }

    method Send(id: ConnId, m: ServerMsg)
      requires Valid() && id in conns
      modifies this
      ensures Valid() && clients == old(clients)
      ensures conns == old(conns)[id := Deliver(old(conns)[id], m)]
    {
      conns := conns[id := Deliver(conns[id], m)];
    }

    method SendError(id: ConnId, message: string)
      requires Valid() && id in conns
      modifies this
      ensures Valid() && clients == old(clients)
      ensures conns == old(conns)[id := Deliver(old(conns)[id], ErrorMsg(message))]
    {
      Send(id, ErrorMsg(message));
    }

    /** `broadcast`: every bound socket, in binding order. */
    method Broadcast(m: ServerMsg)
      requires Valid()
      modifies this
      ensures Valid() && clients == old(clients)
      ensures AllIn(old(clients).Values(), old(conns))
      ensures conns == DeliverAll(old(conns), old(clients).Values(), m)
    {
      var targets := clients.Values();
      TargetsIn();
      ghost var start := conns;
      var i := 0;
      assert AllIn(targets[..0], start);
      while i < |targets|
        invariant 0 <= i <= |targets| && AllIn(targets[..i], start)
        invariant clients == old(clients) && conns.Keys == start.Keys
        invariant conns == DeliverAll(start, targets[..i], m)
      {
        DeliverAllSnoc(start, targets, i, m);
        conns := conns[targets[i] := Deliver(conns[targets[i]], m)];
        i := i + 1;
      }
      assert targets[..i] == targets;
    }

    /** `message`: dispatch on `type`; a frame that does not parse as JSON is
        answered with an error. */
    method HandleMessage(id: ConnId, msg: Inbound, gs: GameStateManager, verify: string -> Option<string>, now: int, freshId: string)
      requires Valid() && id in conns && gs.Valid()
      modifies this, gs
      ensures Valid() && gs.Valid() && id in conns
      ensures msg.Unparsable? ==> clients == old(clients) && conns == old(conns)[id := Deliver(old(conns)[id], ErrorMsg("Invalid message format"))]
      ensures msg.Parsed? && msg.kind !in {"auth", "game:create", "game:join"} ==>
        clients == old(clients) && conns == old(conns)[id := Deliver(old(conns)[id], ErrorMsg("Unknown message type: " + msg.kind))]
      ensures !(msg.Parsed? && msg.kind in {"game:create", "game:join"}) ==> unchanged(gs)
    {
      if msg.Unparsable? {
        SendError(id, "Invalid message format");
      } else if msg.kind == "auth" {
        HandleAuth(id, msg.data, gs, verify);
      } else if msg.kind == "game:create" {
        HandleCreateGame(id, msg.data, gs, now, freshId);
      } else if msg.kind == "game:join" {
        HandleJoinGame(id, msg.data, gs, now);
      } else {
        SendError(id, "Unknown message type: " + msg.kind);
      }
    }

    /** `auth`: a valid token binds the socket to its address and it gets
        `auth:success` and the list of active games; an invalid one gets an
        error and the socket is closed. */
    method HandleAuth(id: ConnId, d: Payload, gs: GameStateManager, verify: string -> Option<string>)
      requires Valid() && id in conns && gs.Valid()
      modifies this
      ensures Valid() && id in conns
      ensures !PresentText(d.token) ==>
        clients == old(clients) && conns == old(conns)[id := Deliver(old(conns)[id], ErrorMsg("Token required for authentication"))]
      ensures PresentText(d.token) && verify(d.token.value).None? ==>
        && clients == old(clients)
        && conns == old(conns)[id := Deliver(old(conns)[id], ErrorMsg("Invalid or expired token")).(open := false)]
      ensures PresentText(d.token) && verify(d.token.value).Some? ==>
        var a := verify(d.token.value).value;
        var bound := old(conns)[id].(userAddress := Some(a));
        && clients == old(clients).Put(a, id)
        && conns == old(conns)[id := Deliver(Deliver(bound, AuthSuccess(a)), GamesList(FormatGames(gs.GetAllActiveGames())))]
    {
      if !PresentText(d.token) {
        SendError(id, "Token required for authentication");
        return;
      }
      var decoded := verify(d.token.value);
      if decoded.None? {
        SendError(id, "Invalid or expired token");
        conns := conns[id := conns[id].(open := false)];
        return;
      }
      var a := decoded.value;
      conns := conns[id := conns[id].(userAddress := Some(a))];
      clients := clients.Put(a, id);
      Send(id, AuthSuccess(a));
      SendGamesList(id, gs);
    }

    method SendGamesList(id: ConnId, gs: GameStateManager)
      requires Valid() && id in conns && gs.Valid()
      modifies this
      ensures Valid() && clients == old(clients)
      ensures conns == old(conns)[id := Deliver(old(conns)[id], GamesList(FormatGames(gs.GetAllActiveGames())))]
    {
      Send(id, GamesList(FormatGames(gs.GetAllActiveGames())));
    }

    /** `game:create`: a refused request gets the first failed check's error;
        an accepted one creates the game and announces it to every bound
        socket. */
    method HandleCreateGame(id: ConnId, d: Payload, gs: GameStateManager, now: int, freshId: string)
      requires Valid() && id in conns && gs.Valid()
      modifies this, gs
      ensures Valid() && gs.Valid() && clients == old(clients)
      ensures CreateError(old(conns)[id], d).Some? ==>
        && unchanged(gs)
        && conns == old(conns)[id := Deliver(old(conns)[id], ErrorMsg(CreateError(old(conns)[id], d).value))]
      ensures CreateError(old(conns)[id], d).None? ==>
        var g := NewGame(freshId, d.betRange.value.0, d.betRange.value.1, d.maxPlayers.value, now);
        && gs.games == old(gs.games).Put(freshId, g)
        && gs.history == old(gs.history) && gs.balances == old(gs.balances) && gs.stats == old(gs.stats) && gs.timers == old(gs.timers)
        && AllIn(old(clients).Values(), old(conns))
        && conns == DeliverAll(old(conns), old(clients).Values(), GameCreated(FormatGame(g)))
    {
      var e := CreateError(conns[id], d);
      if e.Some? {
        SendError(id, e.value);
        return;
      }
      var range := d.betRange.value;
      var g := gs.CreateGame(freshId, range.0, range.1, d.maxPlayers.value, now);
      Broadcast(GameCreated(FormatGame(g)));
    }

    /** `game:join`: refusals get an error; an admitted player is announced to
        every bound socket with the game as it is after the join. */
    method HandleJoinGame(id: ConnId, d: Payload, gs: GameStateManager, now: int)
      requires Valid() && id in conns && gs.Valid()
      modifies this, gs
      ensures Valid() && gs.Valid() && clients == old(clients)
      ensures JoinRequestError(old(conns)[id], d, old(gs.games)).Some? ==>
        && unchanged(gs)
        && conns == old(conns)[id := Deliver(old(conns)[id], ErrorMsg(JoinRequestError(old(conns)[id], d, old(gs.games)).value))]
      ensures JoinRequestError(old(conns)[id], d, old(gs.games)).None? ==>
        var p := Player(old(conns)[id].userAddress.value, None, d.betAmount.value, now);
        var g := old(gs.games.entries)[d.gameId.value];
        && gs.history == old(gs.history) && gs.balances == old(gs.balances) && gs.stats == old(gs.stats)
        && (JoinAllowed(g, p) ==>
              && gs.games == old(gs.games).Put(d.gameId.value, AfterJoin(g, p, now))
              && gs.timers == old(gs.timers) + (if AfterJoin(g, p, now).status == Starting
                                                then multiset{FinishAfter(d.gameId.value)} else multiset{})
              && AllIn(old(clients).Values(), old(conns))
              && conns == DeliverAll(old(conns), old(clients).Values(),
                   PlayerJoined(d.gameId.value, p.address, p.betAmount, FormatGame(AfterJoin(g, p, now)))))
        && (!JoinAllowed(g, p) ==>
              && gs.games == old(gs.games) && gs.timers == old(gs.timers)
              && conns == old(conns)[id := Deliver(old(conns)[id], ErrorMsg(JoinRefused))])
    {
      var e := JoinRequestError(conns[id], d, gs.games);
      if e.Some? {
        SendError(id, e.value);
        return;
      }
      var gameId := d.gameId.value;
      var p := Player(conns[id].userAddress.value, None, d.betAmount.value, now);
      var ok := gs.JoinGame(gameId, p, now);
      if !ok {
        SendError(id, JoinRefused);
        return;
      }
      var after := gs.GetGame(gameId);
      Broadcast(PlayerJoined(gameId, p.address, p.betAmount, FormatGame(after.value)));
    }

    /** The once-a-second `broadcastGameUpdates`. */
    method BroadcastGameUpdates(gs: GameStateManager, now: int)
      requires Valid() && gs.Valid()
      modifies this
      ensures Valid() && clients == old(clients)
      ensures AllIn(old(clients).Values(), old(conns))
      ensures conns == DeliverEach(old(conns), old(clients).Values(), BroadcastMessages(gs.GetAllActiveGames(), gs.games.Values(), now))
    {
      TargetsIn();
      var active := gs.GetAllActiveGames();
      var finished := RecentlyFinishedOf(now, gs.games.Values());
      BroadcastUpdates(active);
      ghost var mid := conns;
      BroadcastResults(finished);
      DeliverEachAppend(old(conns), clients.Values(), Concat(GameUpdates, active), Concat(ResultUpdate, finished));
    }

    method BroadcastUpdates(active: seq<Game>)
      requires Valid()
      modifies this
      ensures Valid() && clients == old(clients)
      ensures AllIn(old(clients).Values(), old(conns))
      ensures conns == DeliverEach(old(conns), old(clients).Values(), Concat(GameUpdates, active))
    {
      ghost var targets := clients.Values();
      TargetsIn();
      var i := 0;
      while i < |active|
        invariant 0 <= i <= |active|
        invariant Valid() && clients == old(clients) && conns.Keys == old(conns).Keys
        invariant conns == DeliverEach(old(conns), targets, Concat(GameUpdates, active[..i]))
      {
        ghost var before := Concat(GameUpdates, active[..i]);
        assert active[..i + 1][..i] == active[..i];
        BroadcastUpdatesOf(active[i]);
        DeliverEachAppend(old(conns), targets, before, GameUpdates(active[i]));
        i := i + 1;
      }
      assert active[..i] == active;
    }

    method BroadcastResults(finished: seq<Game>)
      requires Valid()
      modifies this
      ensures Valid() && clients == old(clients)
      ensures AllIn(old(clients).Values(), old(conns))
      ensures conns == DeliverEach(old(conns), old(clients).Values(), Concat(ResultUpdate, finished))
    {
      ghost var targets := clients.Values();
      TargetsIn();
      var j := 0;
      while j < |finished|
        invariant 0 <= j <= |finished|
        invariant Valid() && clients == old(clients) && conns.Keys == old(conns).Keys
        invariant conns == DeliverEach(old(conns), targets, Concat(ResultUpdate, finished[..j]))
      {
        ghost var before := Concat(ResultUpdate, finished[..j]);
        assert finished[..j + 1][..j] == finished[..j];
        BroadcastResultOf(finished[j]);
        DeliverEachAppend(old(conns), targets, before, ResultUpdate(finished[j]));
        j := j + 1;
      }
      assert finished[..j] == finished;
    }

    /** The broadcasts of `broadcastGameUpdates` for one active game. */
    method BroadcastUpdatesOf(g: Game)
      requires Valid()
      modifies this
      ensures Valid() && clients == old(clients)
      ensures AllIn(old(clients).Values(), old(conns))
      ensures conns == DeliverEach(old(conns), old(clients).Values(), GameUpdates(g))
    {
      TargetsIn();
      ghost var targets := clients.Values();
      Broadcast(GameUpdated(FormatGame(g)));
      assert conns == DeliverEach(old(conns), targets, [GameUpdated(FormatGame(g))]);
      if g.status == Starting && (g.startedAt.None? || g.startedAt.value == 0) {
        ghost var mid := conns;
        Broadcast(GameStarting(g.id));
        assert conns == DeliverEach(mid, targets, [GameStarting(g.id)]);
        DeliverEachAppend(old(conns), targets, [GameUpdated(FormatGame(g))], [GameStarting(g.id)]);
      }
    }

    /** The broadcast of `broadcastGameUpdates` for one recently finished game. */
    method BroadcastResultOf(g: Game)
      requires Valid()
      modifies this
      ensures Valid() && clients == old(clients)
      ensures AllIn(old(clients).Values(), old(conns))
      ensures conns == DeliverEach(old(conns), old(clients).Values(), ResultUpdate(g))
    {
      TargetsIn();
      if g.winner.Some? && g.winnings.Some? && g.winnings.value != 0.0 {
        Broadcast(GameResult(g.id, g.winner.value.address, DisplayName(g.winner.value), g.winnings.value));
        assert conns == DeliverEach(old(conns), old(clients).Values(), ResultUpdate(g));
      }
    }

    /** `pong`. */
    method OnPong(id: ConnId)
      requires Valid() && id in conns
      modifies this
      ensures Valid() && clients == old(clients)
      ensures conns == old(conns)[id := Ponged(old(conns)[id])]
    {
      conns := conns[id := conns[id].(isAlive := true)];
    }

    /** `close` (after the peer closes, `close()` or a heartbeat termination),
        as written: the socket's address is unbound whichever socket holds it. */
    method OnClose(id: ConnId)
      requires Valid() && id in conns
      modifies this
      ensures Valid()
      ensures conns == old(conns)[id := old(conns)[id].(open := false)]
      ensures clients == CloseAsWritten(old(clients), old(conns)[id])
    {
      var c := conns[id];
      conns := conns[id := c.(open := false)];
      clients := CloseAsWritten(clients, c);
    }

    /** The `close` handler corrected to unbind the address only when the
        binding is this socket's. */
    method OnCloseCorrected(id: ConnId)
      requires Valid() && id in conns
      modifies this
      ensures Valid()
      ensures conns == old(conns)[id := old(conns)[id].(open := false)]
      ensures clients == Close(old(clients), id, old(conns)[id])
    {
      var c := conns[id];
      conns := conns[id := c.(open := false)];
      clients := Close(clients, id, c);
    }

    /** The 30 second heartbeat over every socket the server holds. */
    method Heartbeat()
      requires Valid()
      modifies this
      ensures Valid() && clients == old(clients)
      ensures conns.Keys == old(conns).Keys
      ensures forall id :: id in conns ==> conns[id] == HeartbeatConn(old(conns)[id])
    {
      var pending := conns.Keys;
      while pending != {}
        invariant pending <= conns.Keys && conns.Keys == old(conns).Keys
        invariant Valid() && clients == old(clients)
        invariant forall id :: id in conns ==> conns[id] == if id in pending then old(conns)[id] else HeartbeatConn(old(conns)[id])
        decreases pending
      {
        var id :| id in pending;
        conns := conns[id := HeartbeatConn(conns[id])];
        pending := pending - {id};
      }
    }
  }

  lemma {:induction false} DistinctCard<K(!new)>(s: seq<K>)
    requires Distinct(s)
    ensures |set i | 0 <= i < |s| :: s[i]| == |s|
  {
    if s != [] {
      var init := s[..|s| - 1];
      DistinctCard(init);
      var last := s[|s| - 1];
      assert (set i | 0 <= i < |s| :: s[i]) == (set i | 0 <= i < |init| :: init[i]) + {last};
      assert last !in (set i | 0 <= i < |init| :: init[i]);
    }
  }
}
