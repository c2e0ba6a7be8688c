# Neontrill game core, modelled in Dafny

Neontrill is a TON-wallet gaming app. This project models its core and proves properties about it. The core covers:

- a server-side registry of multiplayer pot games with a balance ledger, a history and global statistics;
- a provably-fair roulette spin over a weighted item catalogue;
- a WebSocket layer that authenticates sockets, dispatches create and join commands, and broadcasts game updates and heartbeats;
- TON Connect proof checking with a replay cache, plus Bearer-token guards;
- a Telegram Star Gifts service with a five-minute cache;
- shop, user-profile and leaderboard routes;
- the client's reconnecting socket hook and the lobby, shop, gifts and leaderboard pages.

Each core source file has one module:

| module | file | form |
|---|---|---|
| `GameState` (`game_state.dfy`) | server/utils/gameState.ts | class `GameStateManager` with `games`, `balances`, `history`, `stats` and pending timers |
| `Roulette` (`roulette.dfy`) | server/routes/roulette.ts | class `Session` (seed and nonce) and handler methods over it and the game state |
| `ProvablyFair` (`provably_fair.dfy`) | server/utils/provablyFair.ts | functions over uninterpreted crypto primitives |
| `GameItems` (`game_items.dfy`) | shared/gameItems.ts | the catalogue as a constant, lookups as functions, the random pick as a loop |
| `GameSocketServer` (`websocket.dfy`) | server/websocket.ts | class `GameWebSocketServer` with the connection table, the `clients` map and per-connection outboxes |
| `UserRoutes` (`user_routes.dfy`) | server/routes/user.ts | aggregations as functions, the handlers that create a balance as methods |
| `Auth` (`auth.dfy`) | server/utils/auth.ts | message layout and checks as functions, class `ProofCache` for the replay cache |
| `TelegramGifts` (`telegram_gifts.dfy`) | server/services/telegramGifts.ts | conversions as functions, class `TelegramGiftsService` for the cache |
| `Shop` (`shop.dfy`) | server/routes/shop.ts | functions of the served gift lists, and the purchase handler as a method over the gift service |
| `Leaderboard` (`leaderboard.dfy`) | server/routes/leaderboard.ts | the map/sort/slice/rank pipeline as functions |
| `GameSocketClient` (`game_socket_client.dfy`) | client/hooks/useGameSocket.ts | class `GameSocket` with the hook's refs and state, one method per callback |
| `GamingPage`, `ShopPage`, `MyGiftsPage`, `LeaderboardPage` | client/pages/*.tsx | functions |

Some modules support the rest:

- `Wrappers`: `Option`.
- `Seqs`: `filter`, `find`, `reduce` and `slice`.
- `Text`: lower-casing, `split`, decimal and hex rendering, `parseInt`, UTF-8, little-endian `Uint32Array`.
- `OrderedMaps`: a JavaScript `Map` with its insertion order.
- `Sorting`: a stable descending sort by a numeric key (stability is `Sorting.SortDescStable`).
- `Weighted`: running totals of weights and the two ways a draw walks them.
- `Crypto`: SHA-256, HMAC-SHA512 and Ed25519 as function-typed parameters.

Modelling conventions:

- Amounts and drop chances are exact `real` numbers.
- Clocks, randomness, the network and the database become parameters:
  - `now`;
  - the winner index and the random draw value;
  - the fetched gifts and database rows;
  - oracles for JWT verification and the contract's key lookup.
- Each handler is one sequential method. Where a handler awaits between two reads of shared state, each read gets its own value:
  - the purchase looks the gift up in one served list and checks its availability in a second one (`Shop.HandlePurchase`);
  - the two lists coincide while the first read's cache is fresh (`Shop.PurchaseWithinCacheWindow`), but not across an expiry (`Shop.PurchaseAcrossRefill`).
- Timers are pending values that explicit methods fire.
  - `Tick` is the one-second interval.
  - `FireTimer` stands for the 5-second callbacks.
  - `Heartbeat` is the 30-second ping round.
- Sockets are values in a table, and what they receive is an outbox per connection.

## Model

| member | source | states |
|---|---|---|
| GameState.NewGame | server/utils/gameState.ts:55-74 | a new game has an empty pot and no players, a 60 s join window and status waiting, and is consistent |
| GameState.AfterJoin | server/utils/gameState.ts:108-114 | an admitted player is seated last and their bet added to the pot; the game that fills up starts its 5 s countdown, any other keeps its status |
| GameState.TotalBetsAppend | server/utils/gameState.ts:108-109 | seating one more player adds exactly that bet to the sum of the bets |
| GameState.AfterJoinOk | server/utils/gameState.ts:86-117 | an admitted join keeps the game consistent: the pot equals the sum of the bets, addresses stay distinct, seats never exceed the maximum |
| GameState.WinnerIndex | server/utils/gameState.ts:142 | `Math.floor(Math.random() * n)` picks an index below `n` |
| GameState.Settlement | server/utils/gameState.ts:149-158 | one history entry per player, in join order: the winnings for the winner's address, minus the bet for everyone else |
| GameState.SettledOk | server/utils/gameState.ts:133-144 | a settled game keeps its players and pot, stays consistent, and has a winner whenever it had players |
| GameState.SettlementWithoutWinner | server/utils/gameState.ts:149-158 | when no player has the winner's address, every entry is a loss and the deltas add up to minus the pot |
| GameState.SettlementTotals | server/utils/gameState.ts:144-158 | with the winner among distinct players, exactly one entry is a win and the deltas add up to the winnings minus the other players' bets |
| GameState.TickGameOk | server/utils/gameState.ts:234-248 | a tick keeps a game consistent, leaves finished games alone, starts a closing window with two or more players and cancels one with fewer |
| GameState.ActiveAddresses | server/utils/gameState.ts:179-183 | exactly the addresses seated in unfinished games, each once |
| GameState.ClampAtZero | server/utils/gameState.ts:196-200 | the new balance is never negative and equals the sum whenever that is non-negative |
| GameState.ApplyEntriesSnoc | server/utils/gameState.ts:205-214 | applying one more history entry credits its amount to its address |
| GameState.CreditOk | server/utils/gameState.ts:194-203 | a balance update keeps every balance non-negative, changes only that address, and adds at least the change |
| GameState.ApplyEntriesOk | server/utils/gameState.ts:149-158 | any sequence of balance updates keeps every balance non-negative |
| GameState.TotalBetsNonNegative | server/utils/gameState.ts:90-96 | with non-negative bets the pot is non-negative |
| GameState.RegistryPut | server/utils/gameState.ts:72 | storing a consistent game under its own id keeps the registry consistent |
| GameState.RegistryRemove | server/utils/gameState.ts:166 | deleting a game keeps the registry consistent |
| GameState.GameStateManager.constructor | server/utils/gameState.ts:39-49 | no games, no history, no balances, the default statistics (win rate 0.47) and no pending timers |
| GameState.GameStateManager.GetGame | server/utils/gameState.ts:76-78 | a game is returned exactly when one is stored under that id, and it is that game |
| GameState.GameStateManager.GetAllActiveGames | server/utils/gameState.ts:80-84 | exactly the unfinished games, in creation order |
| GameState.GameStateManager.GetUserHistory | server/utils/gameState.ts:216-218 | exactly that address's entries, oldest first, each as many times as it occurs in the history |
| GameState.GameStateManager.CreateGame | server/utils/gameState.ts:55-74 | the new game is stored under its id and returned; nothing else changes |
| GameState.GameStateManager.JoinGame | server/utils/gameState.ts:86-117 | succeeds exactly when the game exists, the bet is within range, the game is waiting and not full and the address is not seated; on success the game becomes its joined form and a full game schedules its settlement; on failure nothing changes |
| GameState.GameStateManager.StartGame | server/utils/gameState.ts:119-131 | a stored waiting game starts its 5 s countdown and schedules settlement after 5000 ms; anything else is left as it was |
| GameState.GameStateManager.FinishGame | server/utils/gameState.ts:133-168 | a stored unfinished game is settled and scheduled for deletion after 60000 ms; a missing or finished game changes nothing |
| GameState.GameStateManager.Settle | server/utils/gameState.ts:133-168 | the settled game replaces the stored one, the settlement entries are appended to the history and applied to the balances, the statistics are updated when there were players, and a deletion timer is added |
| GameState.GameStateManager.PayOut | server/utils/gameState.ts:141-162 | the entries for every player are appended and applied, then the statistics are updated |
| GameState.GameStateManager.RecordSettlement | server/utils/gameState.ts:149-158 | the loop appends the settlement entries in order and the balances end as those entries applied one by one |
| GameState.GameStateManager.UpdateGlobalStats | server/utils/gameState.ts:170-184 | one more game played, the pot added to the bets, the biggest win raised to the winnings when they are larger, and the active players recounted |
| GameState.GameStateManager.GetUserBalance | server/utils/gameState.ts:186-192 | an unseen address is given the starting balance of 10; the balance returned is the stored one and never negative |
| GameState.GameStateManager.UpdateUserBalance | server/utils/gameState.ts:194-203 | the balance becomes the old one plus the change, clamped at zero; nothing else changes |
| GameState.GameStateManager.AddHistoryEntry | server/utils/gameState.ts:205-214 | one entry is appended to the history and its amount applied to that address's balance |
| GameState.GameStateManager.GetGlobalStats | server/utils/gameState.ts:222-231 | the statistics with the active players recounted, stored and returned |
| GameState.GameStateManager.Tick | server/utils/gameState.ts:234-249 | every stored game is ticked exactly once, no game is added or removed, and the timers the ticks ask for are added |
| GameState.GameStateManager.TickAll | server/utils/gameState.ts:235-248 | the loop leaves the registry as the games ticked in creation order |
| GameState.TickGame | server/utils/gameState.ts:236-247 | a tick keeps a game's id, players and pot |
| GameState.GameStateManager.TickOne | server/utils/gameState.ts:236-247 | the game under one key is replaced by its ticked form and its timers are added |
| GameState.GameStateManager.FireTimer | server/utils/gameState.ts:165-167 | a due deletion consumes its timer and removes the game; history, balances and statistics stay as they were |
| GameState.TickedUpToOutside | server/utils/gameState.ts:235 | a game whose key has not been reached is untouched |
| GameState.TickStep | server/utils/gameState.ts:235-248 | ticking one more key replaces that game by its ticked form and adds its timers |
| GameState.TickedUpToAll | server/utils/gameState.ts:235-248 | ticking every key once ticks each game exactly once |
| GameSocketServer.FormatGame | server/websocket.ts:276-286 | the client view of a game carries its id, pot, bet range, status, time left and maximum, and the number of seated players instead of the list |
| GameSocketServer.FormatGames | server/websocket.ts:229 | every game formatted, in order |
| GameSocketServer.DeliverAllSnoc | server/websocket.ts:301-305 | one more bound socket sent a broadcast: that socket gets the message and nothing else changes |
| GameSocketServer.RepeatOnce | server/websocket.ts:301-305 | messages sent to a socket listed once arrive once each, in order |
| GameSocketServer.DeliverAllEffect | server/websocket.ts:288-305 | a broadcast leaves closed sockets untouched and appends the message to an open one once per time it is bound |
| GameSocketServer.DeliverEachEffect | server/websocket.ts:243-273 | a run of broadcasts appends the messages in order to every open bound socket and leaves closed ones alone |
| GameSocketServer.DeliverEachAppend | server/websocket.ts:243-273 | broadcasting two runs of messages one after the other is broadcasting their concatenation |
| GameSocketServer.GameUpdates | server/websocket.ts:243-256 | each active game sends `game:updated`, followed by `game:starting` exactly when it is starting and its `startedAt` is falsy |
| GameSocketServer.DisplayName | server/websocket.ts:267 | the winner's username when it is non-empty, otherwise the first 8 characters of the address |
| GameSocketServer.ResultUpdate | server/websocket.ts:259-273 | `game:result` is sent exactly when the game has a winner and non-zero winnings, carrying the winner's address, display name and winnings |
| GameSocketServer.InConcat | server/websocket.ts:243-273 | a message is among a run's broadcasts exactly when one of the games produced it |
| GameSocketServer.UpdatesAreExactlyGameUpdated | server/websocket.ts:249-255 | since `startGame` always stamps a positive `startedAt`, the update broadcast is exactly one `game:updated` per active game and never `game:starting` |
| GameSocketServer.ResultsExactly | server/websocket.ts:235-240 | a result goes out for a game exactly when it finished less than 5000 ms ago with a winner and non-zero winnings |
| GameSocketServer.CreateError | server/websocket.ts:136-154 | a create request can be refused only with one of the handler's four error texts |
| GameSocketServer.CreateAccepted | server/websocket.ts:136-154 | a game is created exactly for an authenticated socket asking for 2 to 10 players with a bet range whose lower end is positive and below the upper |
| GameSocketServer.JoinRequestError | server/websocket.ts:179-193 | a join request reaches the game state only from an authenticated socket naming a present game id, a non-zero bet and a stored game |
| GameSocketServer.CloseAsWritten | server/websocket.ts:52-57 | as written, the close handler removes the address's binding whatever socket it points at, and leaves the map alone for an unauthenticated socket |
| GameSocketServer.AsWrittenCloseUnbindsNewerSocket | server/websocket.ts:52-57 | when a second socket has re-bound an address, closing the first unbinds the live second one |
| GameSocketServer.Close | server/websocket.ts:52-57 | the corrected close handler keeps the binding map well formed |
| GameSocketServer.CloseKeepsOthers | server/websocket.ts:52-57 | closing a socket never touches a binding to another socket, adds none, and leaves its own address unbound from it |
| GameSocketServer.HeartbeatConn | server/websocket.ts:66-75 | a socket that did not answer the previous ping is terminated, an open live one stays open and is marked not alive, a closed one is left alone |
| GameSocketServer.Ponged | server/websocket.ts:37-39 | a pong marks the socket alive |
| GameSocketServer.HeartbeatTwoRounds | server/websocket.ts:37-75 | a live socket survives the next two heartbeat rounds exactly when it answers the first round's ping |
| GameSocketServer.GameWebSocketServer.constructor | server/websocket.ts:16-27 | no sockets and no bound addresses |
| GameSocketServer.GameWebSocketServer.Connect | server/websocket.ts:32-36 | a new socket is open, alive and unauthenticated; the bindings are unchanged |
| GameSocketServer.GameWebSocketServer.GetConnectedUsers | server/websocket.ts:307-309 | the number of distinct bound addresses |
| GameSocketServer.GameWebSocketServer.Send | server/websocket.ts:288-292 | only that socket's outbox changes, and only when it is open |
| GameSocketServer.GameWebSocketServer.SendError | server/websocket.ts:294-299 | that socket is sent an `error` message with the text |
| GameSocketServer.GameWebSocketServer.Broadcast | server/websocket.ts:301-305 | every bound socket is sent the message, in binding order; the bindings are unchanged |
| GameSocketServer.GameWebSocketServer.HandleMessage | server/websocket.ts:42-100 | an unparsable frame gets "Invalid message format", an unknown type gets "Unknown message type: " and the type, and only create and join touch the game state |
| GameSocketServer.GameWebSocketServer.HandleAuth | server/websocket.ts:102-130 | no token gets "Token required for authentication"; a rejected token gets "Invalid or expired token" and the socket is closed; an accepted one binds the address to this socket and sends `auth:success` and then the active games list |
| GameSocketServer.GameWebSocketServer.SendGamesList | server/websocket.ts:225-231 | the socket is sent every active game, formatted, in creation order |
| GameSocketServer.GameWebSocketServer.HandleCreateGame | server/websocket.ts:132-173 | a refused request gets the first failed check's error and leaves the game state alone; an accepted one stores the new game and broadcasts `game:created` with it |
| GameSocketServer.GameWebSocketServer.HandleJoinGame | server/websocket.ts:175-223 | a request refused before the game state gets its error; one the game state refuses gets the join error and changes no game and no timer; an admitted player is broadcast with the game as it is after the join, and the join that fills the room schedules its settlement |
| GameSocketServer.GameWebSocketServer.BroadcastGameUpdates | server/websocket.ts:233-274 | every bound socket is sent the updates of the active games and then the results of the recently finished ones, in that order |
| GameSocketServer.GameWebSocketServer.BroadcastUpdates | server/websocket.ts:243-256 | the loop broadcasts each active game's updates in order |
| GameSocketServer.GameWebSocketServer.BroadcastResults | server/websocket.ts:259-273 | the loop broadcasts each finished game's result in order |
| GameSocketServer.GameWebSocketServer.BroadcastUpdatesOf | server/websocket.ts:244-255 | one active game's `game:updated`, and `game:starting` when it applies |
| GameSocketServer.GameWebSocketServer.BroadcastResultOf | server/websocket.ts:260-272 | one finished game's `game:result` when it has a winner and winnings |
| GameSocketServer.GameWebSocketServer.OnPong | server/websocket.ts:37-39 | that socket is marked alive; nothing else changes |
| GameSocketServer.GameWebSocketServer.OnClose | server/websocket.ts:52-57 | as written: the socket is closed and its address unbound, whichever socket the binding holds |
| GameSocketServer.GameWebSocketServer.OnCloseCorrected | server/websocket.ts:52-57 | the corrected close handler: the socket is closed and its binding removed only when the binding is this socket |
| GameSocketServer.GameWebSocketServer.Heartbeat | server/websocket.ts:66-75 | every socket goes through one heartbeat round; no socket is added or removed and the bindings are unchanged |
| GameSocketClient.Backoff | client/hooks/useGameSocket.ts:99-102 | a retry delay is between one and thirty seconds |
| GameSocketClient.BackoffDoubles | client/hooks/useGameSocket.ts:95-110 | within the five attempts the delay is 1000 ms times a power of two, below the cap, and doubles from one attempt to the next; past them it is the cap |
| GameSocketClient.PowMonotone | client/hooks/useGameSocket.ts:100 | the power of two grows with the attempt count |
| GameSocketClient.BackoffSchedule | client/hooks/useGameSocket.ts:99-102 | the five retry delays are 1, 2, 4, 8 and 16 seconds |
| GameSocketClient.GameSocket.constructor | client/hooks/useGameSocket.ts:19-28 | no socket, not connecting or connected, no attempts, message or error, nothing sent and no timers |
| GameSocketClient.GameSocket.Connect | client/hooks/useGameSocket.ts:30-46 | without sign-in or token the error is "Authentication required" and no socket is made; with a socket open or opening nothing happens; otherwise one new socket is opening and nothing has been sent on it; whenever no socket is made, the sent messages and the connecting flag are kept; the attempt count, pending retry, last message and connected flag never change |
| GameSocketClient.GameSocket.OnOpen | client/hooks/useGameSocket.ts:48-59 | connected, error cleared, attempts reset to 0, and the auth message with the token is the first and only message on the socket |
| GameSocketClient.GameSocket.OnMessage | client/hooks/useGameSocket.ts:61-87 | the message becomes the last message, and an "error" message's text becomes the connection error; nothing else changes |
| GameSocketClient.GameSocket.HandleClose | client/hooks/useGameSocket.ts:89-115 | disconnected; an unclean close under five attempts schedules a retry after the back-off delay; with the attempts used up the error becomes "Max reconnection attempts reached"; a clean close schedules nothing |
| GameSocketClient.GameSocket.OnClose | client/hooks/useGameSocket.ts:89-115 | the current socket is closed; an unclean close under five attempts schedules the back-off retry, a clean one schedules nothing; with five attempts used the error becomes "Max reconnection attempts reached", under five it is kept; attempts, sent messages, last message and socket count are kept |
| GameSocketClient.GameSocket.OnError | client/hooks/useGameSocket.ts:117-122 | the error becomes "Connection error" and the hook is neither connected nor connecting |
| GameSocketClient.GameSocket.FireRetry | client/hooks/useGameSocket.ts:104-110 | the retry timer is consumed and one more attempt is counted (never more than five); then, as in `connect`: without sign-in the error is "Authentication required" and no socket is made, otherwise the error is kept; a new socket is opening unless one was open or opening, and otherwise the socket, socket count, sent messages and connecting flag are kept; the last message, connected flag and delayed-connect count never change |
| GameSocketClient.GameSocket.Disconnect | client/hooks/useGameSocket.ts:129-140 | the retry timer is cancelled, the socket forgotten and the hook disconnected |
| GameSocketClient.GameSocket.Reconnect | client/hooks/useGameSocket.ts:151-156 | disconnected, attempts reset to 0, error cleared, and one more one-second connect timer pending |
| GameSocketClient.GameSocket.FireDelayedConnect | client/hooks/useGameSocket.ts:155 | the one-second timer is consumed; then, as in `connect`: without sign-in the error is "Authentication required" and no socket is made, otherwise the error is kept; a new socket is opening unless one was open or opening, and otherwise the socket, socket count, sent messages and connecting flag are kept; attempts, pending retry, last message and connected flag never change |
| GameSocketClient.GameSocket.SendEvent | client/hooks/useGameSocket.ts:142-149 | on an open socket the event is sent after everything sent before; otherwise nothing is sent and the error becomes "Not connected" |
| GameSocketClient.RetriesRunOut | client/hooks/useGameSocket.ts:95-114 | when every socket closes uncleanly, exactly five retries are made (six sockets in all) and the hook ends with "Max reconnection attempts reached" and no retry pending |
| Roulette.Session.constructor | server/routes/roulette.ts:27 | a new session has no server seed and no nonce |
| Roulette.StatusCode | server/routes/roulette.ts:30-86 | a reply has status 200 exactly when an item was won and 401 exactly when the caller is not signed in |
| Roulette.JsRemainder | server/routes/roulette.ts:56 | JavaScript's `%` on a non-negative number: a remainder in `[0, m)` that leaves a whole multiple of `m` |
| Roulette.FloorBounds | server/routes/roulette.ts:56 | the floor of the quotient brackets the dividend between two neighbouring multiples |
| Roulette.StrictDrawListed | server/routes/roulette.ts:58-71 | the item drawn is always one of the listed items |
| Roulette.PickWinningItem | server/routes/roulette.ts:58-71 | the item the draw loop returns over the catalogue is the first whose running total exceeds the winning weight, or the last item |
| Roulette.DrawStrict | server/routes/roulette.ts:58-71 | the loop adds each drop chance to the running weight and stops at the first total that exceeds the winning weight, falling back to the last item |
| Roulette.AsWrittenWeight | server/routes/roulette.ts:56 | as written, the winning weight is the number modulo the total, in `[0, total)` |
| Roulette.SpinWeight | server/routes/roulette.ts:56 | the corrected winning weight, in tenths of the total, is in `[0, total)` |
| Roulette.Spin | server/routes/roulette.ts:49-71 | as written: the item paid is the one the strict draw selects at the provably fair number modulo the total (`SpinItem`) |
| Roulette.CorrectedSpin | server/routes/roulette.ts:49-71 | the corrected draw: the item paid is the one the strict draw selects at the corrected winning weight (`CorrectedSpinItem`) |
| Roulette.HandleGetSeed | server/routes/roulette.ts:15-23 | a fresh seed from the random bytes is stored with nonce 0, and the reply is its SHA-256 hash in hex, which decodes to the digest of the seed |
| Roulette.HandleSpin | server/routes/roulette.ts:25-94 | a missing seed, client seed or nonce refuses first and changes nothing; then a missing user; then a balance below 0.1 per roll refuses after only registering the address; otherwise the cost is charged, the item the as-written draw selects (`SpinItem`) is credited and recorded as a win under `roulette-` and the session id, the nonce goes up by one and the reply carries the item and the server seed |
| Roulette.Charge | server/routes/roulette.ts:40-47 | the spin is paid exactly when the caller's balance covers the cost; a paid spin debits the cost (clamped at zero), an unpaid one only registers the address with its balance; history, games, statistics and timers are kept |
| Roulette.RecordWin | server/routes/roulette.ts:75-84 | the win is appended to the history under `roulette-` and the session id and credited to the caller, and the session's nonce goes up by one with the server seed kept |
| Roulette.SpinWeightOfCatalogue | server/routes/roulette.ts:52-56 | with the catalogue's total of 100 the corrected winning weight is the number modulo 1000, in tenths |
| Roulette.StrictDrawInterval | server/routes/roulette.ts:58-71 | for a weight in `[0, 100)` the fallback is never taken, and item `i` is drawn exactly when the weight lies in `[Prefix(i), Prefix(i + 1))` |
| Roulette.PrefixTenthsOk | shared/gameItems.ts:13-183 | the catalogue's running totals, in tenths of a percent |
| Roulette.SpinDistribution | server/routes/roulette.ts:52-71 | with the corrected weight, item `i` is paid exactly when the number modulo 1000 falls in a block of residues ten times its drop chance wide, so every item can be won with the probability its drop chance states |
| Roulette.AsWrittenWeightOfCatalogue | server/routes/roulette.ts:52-56 | as written, the winning weight is the number modulo 100, a whole number |
| Roulette.AsWrittenNeverDraws | server/routes/roulette.ts:52-66 | as written, items 12, 14 and 15 are never paid, whatever the number |
| Roulette.SpinItemInterval | server/routes/roulette.ts:49-71 | as written, a spin pays item `i` exactly when ten times the provably fair number modulo 100 lies in the item's block of running totals in tenths; the item depends only on the seeds, the nonce and the catalogue |
| Roulette.SpinBalance | server/routes/roulette.ts:38-81 | a paid spin moves the caller's balance by the payout minus the cost and leaves every other address alone |
| Roulette.NegativeRollCountCredits | server/routes/roulette.ts:28-47 | a negative `rollCount` passes the balance check and credits the caller instead of charging them |
| GameItems.ItemsByRarity | shared/gameItems.ts:186-188 | exactly the items of that rarity, in catalogue order |
| GameItems.ItemById | shared/gameItems.ts:190-192 | an item with that id when there is one, and nothing only when no item has it |
| GameItems.PrefixIsSum | shared/gameItems.ts:194-205 | the draw loop's running total after `k` items is the `reduce` of the drop chances over those items |
| GameItems.TotalDropChance | shared/gameItems.ts:194-196 | the total drop chance is the running total over all the items |
| GameItems.TotalIsPrefix | shared/gameItems.ts:194-196 | the total drop chance is the running total over the whole catalogue |
| GameItems.CataloguePrefixAt | shared/gameItems.ts:13-183 | the catalogue's running totals |
| GameItems.CataloguePrefixes | shared/gameItems.ts:13-183 | the running totals at the ends of the five rarity blocks are 50, 80, 95, 99 and 100 percent |
| GameItems.CatalogueTotal | shared/gameItems.ts:194-196 | the drop chances add up to 100 percent |
| GameItems.BlockSum | shared/gameItems.ts:194-196 | the drop chances over a block of items are the difference of two running totals |
| GameItems.RarityBlock | shared/gameItems.ts:186-188 | the items of a rarity are exactly its contiguous block of the catalogue |
| GameItems.RarityTotals | shared/gameItems.ts:13-183 | per rarity the drop chances add up to 50, 30, 15, 4 and 1 percent, as the section headings say |
| GameItems.CatalogueWeightsPositive | shared/gameItems.ts:13-183 | every item has a positive drop chance |
| GameItems.CataloguePricesPositive | shared/gameItems.ts:13-183 | every item has a positive price |
| GameItems.CatalogueIdsDistinct | shared/gameItems.ts:13-183 | no two items share an id |
| GameItems.FindById | shared/gameItems.ts:190-192 | with distinct ids, looking an item up by its own id finds that item |
| GameItems.InclusiveDrawListed | shared/gameItems.ts:202-211 | the item drawn is always one of the listed items |
| GameItems.RandomItem | shared/gameItems.ts:198-212 | the item returned is the one the inclusive walk selects for `Math.random()` times the total |
| GameItems.DrawInclusive | shared/gameItems.ts:202-211 | the loop returns the first item whose running total reaches the threshold, or the first item when none does |
| GameItems.RandomItemDistribution | shared/gameItems.ts:198-212 | for `Math.random()` in `(0, 1)` (0 itself draws the first item) the fallback is never taken, and item `i` is drawn exactly when `u * 100` lies in an interval as wide as its drop chance |
| GameItems.InclusiveInterval | shared/gameItems.ts:202-208 | with positive drop chances and a threshold in `(0, total]`, the walk always finds an item, and item `i` exactly on its own interval of the running totals |
| Auth.ProofMessage | server/utils/auth.ts:54-66 | the inner message is 62 bytes plus the UTF-8 domain and payload |
| Auth.ProofMessageLayout | server/utils/auth.ts:58-66 | the prefix, the little-endian workchain, the 32-byte account hash, the domain length, the domain, the timestamp and the payload sit at fixed offsets, in that order |
| Auth.ProofMessageDetermines | server/utils/auth.ts:58-66 | two proofs with equally long domains that give the same message agree on hash, domain and payload, and on workchain, domain length and timestamp modulo 2^32 |
| Auth.SignedBuffer | server/utils/auth.ts:68-73 | what the wallet signs is 0xFF 0xFF, "ton-connect" and the SHA-256 of the message, 45 bytes |
| Auth.ContractKeyBytesValue | server/utils/auth.ts:104-107 | the contract's 256-bit key renders as 32 bytes whose big-endian value is the key |
| Auth.ContractKeyMatches | server/utils/auth.ts:104-113 | a 256-bit contract key equals a 32-byte public key exactly when the key is that public key's big-endian value |
| Auth.Check | server/utils/auth.ts:77-138 | a proof is refused as stale exactly when it is more than 300 s old |
| Auth.CheckAcceptsExactly | server/utils/auth.ts:77-138 | a proof is accepted exactly when it is at most 300 s old, names the app domain, its address parses and the contract's key is found and equals the given key, its signature was not accepted in the last 300 s, and the Ed25519 signature over the signed buffer verifies |
| Auth.EarlyRefusalIndependent | server/utils/auth.ts:81-91 | a stale proof or a foreign domain is refused whatever the key lookup, the cache and the signature would say |
| Auth.KeyMismatchRefused | server/utils/auth.ts:104-113 | a fresh proof for the app's domain whose key differs from the contract's is refused as a key mismatch |
| Auth.ProofCache.constructor | server/utils/auth.ts:17 | the replay cache starts empty |
| Auth.ProofCache.VerifyTonSignature | server/utils/auth.ts:77-138 | the answer is true exactly when the checks accept the proof, and only an accepted signature is recorded, at the current time |
| Auth.ProofCache.Sweep | server/utils/auth.ts:19-26 | the sweep leaves the cache as its entries that are at most 600 s old, with their times |
| Auth.Swept | server/utils/auth.ts:19-26 | a signature stays exactly when it was accepted at most 600 s before the sweep, with its time unchanged |
| Auth.SweepKeepsReplayDecisions | server/utils/auth.ts:19-127 | sweeping never reopens a replay: any later replay test answers as it would on the unswept cache |
| Auth.AcceptedThenRefused | server/utils/auth.ts:121-132 | once a signature is accepted at a positive time, the same signature is refused for the next 300 s |
| Auth.FutureProofReplayable | server/utils/auth.ts:82-124 | a proof whose timestamp lies 300 s or more in the future is accepted again once its signature leaves the replay window |
| Auth.BearerToken | server/utils/auth.ts:162-163 | a token read from the header is non-empty, the second space-separated word, and contains no space |
| Auth.BearerTokenOfHeader | server/utils/auth.ts:162-163 | a header `<scheme> <token>` yields exactly the token |
| Auth.AuthenticateToken | server/utils/auth.ts:157-178 | 401 "Access token required" exactly without a token, 403 "Invalid or expired token" exactly when verification fails, and otherwise the request carries the token's address |
| Auth.SignaturePayload | server/utils/auth.ts:181-185 | the payload starts with "auth-" and ends with the 32 hex digits of the nonce |
| Auth.SignaturePayloadParses | server/utils/auth.ts:181-185 | the payload splits at `-` into "auth", the timestamp and the nonce, and both read back to the values that made it |
| ProvablyFair.GenerateServerSeed | server/utils/provablyFair.ts:3-5 | the seed is 64 lowercase hex digits that decode back to the 32 random bytes |
| ProvablyFair.HashSeed | server/utils/provablyFair.ts:7-9 | the hash is 64 lowercase hex digits that decode to the SHA-256 of the seed's UTF-8 bytes |
| ProvablyFair.CombinedSeed | server/utils/provablyFair.ts:16 | the MAC input is the server seed, a dash, the client seed, a dash and the nonce's decimal digits, at those positions |
| ProvablyFair.SpinMac | server/utils/provablyFair.ts:16-19 | the MAC is HMAC-SHA512 keyed by the server seed's UTF-8 bytes over the bytes of both seeds and the nonce joined by 0x2D dashes |
| ProvablyFair.LastDashBeforeDigits | server/utils/provablyFair.ts:16 | in `c-d` with `d` all digits, the last dash is the one after `c` |
| ProvablyFair.DashSplitInjective | server/utils/provablyFair.ts:16 | `c-d` with `d` all digits determines `c` and `d` |
| ProvablyFair.CombinedSeedInjective | server/utils/provablyFair.ts:16 | under one server seed, different client seeds or nonces give different MAC inputs, so no two spins reuse one |
| ProvablyFair.CalculateResult | server/utils/provablyFair.ts:11-26 | the result is the big-endian value of the MAC's first four bytes, below 2^32 |
| Text.ToLower | client/pages/Shop.tsx:79-87 | lower-casing keeps the length and lowers each ASCII capital |
| Text.ToLowerIdempotent | client/pages/Shop.tsx:79-87 | lower-casing twice is lower-casing once |
| Text.ContainsEmpty | client/pages/Shop.tsx:83-85 | every string includes the empty string |
| Text.Split | server/utils/auth.ts:163 | `split` yields at least one field, and no field contains the separator |
| Text.SplitJoin | server/utils/auth.ts:163 | joining the fields of a split with the separator gives back the string |
| Text.SplitNoSeparator | server/utils/auth.ts:163 | a string without the separator splits into itself |
| Text.SplitFirstField | server/utils/auth.ts:163 | splitting `a` + separator + `b`, with no separator in `a`, gives `a` followed by the fields of `b` |
| Text.NatToDecimal | server/utils/provablyFair.ts:16 | the rendering is a non-empty string of decimal digits |
| Text.DecimalRoundTrip | server/utils/provablyFair.ts:16 | reading a rendered number back gives the number |
| Text.NatToDecimalInjective | server/utils/provablyFair.ts:16 | different numbers render differently |
| Text.DigitPrefix | server/routes/leaderboard.ts:60 | the longest run of leading digits: every character a digit, and the next one not |
| Text.TrimStart | server/routes/leaderboard.ts:60 | a suffix of the string that does not start with white space, and every character removed before it is ECMAScript white space or a line terminator |
| Text.ParseInt | server/routes/leaderboard.ts:60 | a number is read only from a non-blank string, and a negative one only after a leading minus |
| Text.ParseIntOfHex | server/routes/leaderboard.ts:60 | after a `0x` prefix, `parseInt` reads the hex digits in base 16 |
| Text.ParseIntOfDigits | server/routes/leaderboard.ts:60 | `parseInt` of a digit string is its value |
| Text.ParseIntOfNegated | server/routes/leaderboard.ts:60 | `parseInt` after a minus sign is the negated value |
| Text.ParseIntOfDecimal | server/routes/leaderboard.ts:60 | `parseInt` reads back a rendered non-negative number |
| Text.HexEncode | server/utils/provablyFair.ts:4 | two lowercase hex digits per byte |
| Text.HexEncodeAppend | server/utils/provablyFair.ts:19-22 | the hex of two byte strings joined is their hexes joined |
| Text.HexRoundTrip | server/utils/auth.ts:104-110 | decoding the hex of a byte string gives the bytes back |
| Text.BigEndianBound | server/utils/provablyFair.ts:22-23 | a string of `k` bytes has a value below 256^k |
| Text.HexDecodePairs | server/utils/auth.ts:110 | `Buffer.from(s, "hex")`: byte `i` is the value of the hex digit pair at `2i`, and decoding stops only at a pair that is not hex or at the end |
| Text.HexValueOfEncode | server/utils/provablyFair.ts:22-23 | `parseInt(hex, 16)` of the hex of bytes is their big-endian value |
| Text.NatToHex | server/utils/auth.ts:105 | `toString(16)` is a non-empty string of lowercase hex digits |
| Text.PadStart | server/utils/auth.ts:105 | padding reaches the length asked for, ends with the original string, and every character put in front is the pad character |
| Text.NatToHexValue | server/utils/auth.ts:105 | reading `n.toString(16)` back as hexadecimal gives `n` |
| Text.NatToHexLength | server/utils/auth.ts:105 | a number below 256^k (k at least 1) has at most 2k hex digits, so a 256-bit key fits the 64-digit padding |
| Text.HexValueOfLeadingZeros | server/utils/auth.ts:105 | `padStart` with `"0"` does not change the hexadecimal value |
| Text.HexDecodeValue | server/utils/auth.ts:104-107 | `Buffer.from(s, "hex")` on an even-length string of lowercase digits gives one byte per pair, and the bytes read big-endian have the digits' value |
| Text.BigEndianInjective | server/utils/auth.ts:110 | `Buffer.equals` on two buffers of one length: the same big-endian value means the same bytes |
| Text.Utf8Ascii | server/utils/auth.ts:59-71 | an ASCII string encodes to one byte per character, its code |
| Text.Utf8Append | server/utils/auth.ts:58-66 | the UTF-8 of two strings joined is their encodings joined |
| Text.Uint32LE | server/utils/auth.ts:60-64 | a `Uint32Array` element is four bytes |
| Text.Uint32LERoundTrip | server/utils/auth.ts:60-64 | the four bytes read back little-endian give the integer modulo 2^32 |
| TelegramGifts.RarityOfLower | server/services/telegramGifts.ts:209-225 | never Mythic; Rare exactly for "rare" and "uncommon", Epic exactly for "epic" and "special", Legendary exactly for "legendary", "unique" and "mythic", and Common for everything else |
| TelegramGifts.MapTelegramRarity | server/services/telegramGifts.ts:208-226 | a Telegram rarity never maps to Mythic |
| TelegramGifts.MapRarityIgnoresCase | server/services/telegramGifts.ts:209 | the mapping gives the same rarity for a name and its lower-cased form |
| TelegramGifts.RarityDropChance | server/services/telegramGifts.ts:249-257 | every drop chance is positive and at most one half, and an unknown rarity gets one half |
| TelegramGifts.GiftDropChancesSumToOne | server/services/telegramGifts.ts:251-254 | the four gift rarities' drop chances add up to 1 |
| TelegramGifts.ConvertToGameItem | server/services/telegramGifts.ts:231-247 | the converted gift keeps id, name, emoji, rarity, description, counts and sold-out flag, costs one TON per ten stars, is in the "telegram_gift" category with its rarity's drop chance, has exactly the gift's image when that is non-empty and none otherwise, and carries its rarity's gradient |
| TelegramGifts.ConvertAll | server/services/telegramGifts.ts:231-247 | every gift of a list is converted, in order |
| TelegramGifts.FindGift | server/services/telegramGifts.ts:272-275 | the answer is a listed gift with that id, and there is none exactly when no gift has that id |
| TelegramGifts.MockGiftsInStock | server/services/telegramGifts.ts:57-146 | every built-in gift is not sold out and has stock left |
| TelegramGifts.MockGiftsAvailable | server/services/telegramGifts.ts:57-146 | looking up any built-in gift by its id finds it available |
| TelegramGifts.StarGifts | server/services/telegramGifts.ts:37-156 | the served list is the new cache and never empty; a non-empty cache younger than five minutes is served unchanged, and otherwise the timestamp becomes now and the list is the API's answer when there is a bot token and the answer is non-empty, else the eight built-in gifts |
| TelegramGifts.SecondCallServesCache | server/services/telegramGifts.ts:41-43 | a second call within five minutes of the first one's refill returns the same list, whatever the API answers then |
| TelegramGifts.TelegramGiftsService.constructor | server/services/telegramGifts.ts:24-32 | a new service has the bot token given, an empty cache and timestamp 0 |
| TelegramGifts.TelegramGiftsService.GetStarGifts | server/services/telegramGifts.ts:37-156 | the call returns and stores what the cache rule above says |
| TelegramGifts.TelegramGiftsService.GetGiftById | server/services/telegramGifts.ts:272-275 | the answer is the first gift with that id in the list the cache rule serves |
| TelegramGifts.TelegramGiftsService.IsGiftAvailable | server/services/telegramGifts.ts:280-283 | true exactly when that lookup finds a gift that is not sold out and whose remaining count, 0 when missing, is positive |
| Shop.LocalItems | server/routes/shop.ts:15 | each local catalogue item is listed, in order |
| Shop.GiftItems | server/routes/shop.ts:125-134 | `GET /telegram-gifts` (and the gift part of the listing): each served gift is listed converted, in order |
| Shop.Listing | server/routes/shop.ts:8-41 | the listing has one entry per served gift plus the sixteen catalogue items, and always ends with the catalogue items in order |
| Shop.ListingContents | server/routes/shop.ts:8-41 | the listing is every converted gift in order followed by the sixteen catalogue items, and the catalogue alone when fetching the gifts failed |
| Shop.Purchase | server/routes/shop.ts:44-87 | with the gift lookup and the availability check each reading its own served list, a successful purchase returns the item with the id asked for |
| Shop.HandlePurchase | server/routes/shop.ts:44-87 | `POST /purchase/:itemId` looks the gift up through the service, checks availability through it again only when a gift was found, and replies as `Purchase` over the two lists those calls served; the cache afterwards is the last call's |
| Shop.PurchaseWithinCacheWindow | server/routes/shop.ts:49-52 | when the availability check comes before the first read's cache expires, both reads see the same list, and 400 is answered exactly for a gift found there that is unavailable |
| Shop.PurchaseAcrossRefill | server/routes/shop.ts:49-52 | a gift available at lookup but sold out in a refilled list at the check is refused with 400, though a single read would have sold it |
| Shop.PurchaseOutcomes | server/routes/shop.ts:44-87 | 400 exactly for a gift found at lookup that is unavailable at the check, 404 exactly for an id that is neither a gift nor a catalogue item, a gift purchase exactly for a gift found at lookup and available at the check, and a local purchase exactly for a catalogue id that is not a gift |
| Shop.Sell | server/routes/shop.ts:90-122 | the sale is refused as a Telegram gift exactly when the id names a served gift |
| Shop.SellOutcomes | server/routes/shop.ts:90-122 | a gift id is refused as unsellable exactly when it names a gift, 404 exactly when the id is unknown, and otherwise the catalogue item sells for 0.8 times its base price |
| Shop.SellBelowBasePrice | server/routes/shop.ts:111 | a sale pays a positive amount below the item's base price |
| UserRoutes.Magnitude | server/routes/user.ts:42 | `Math.abs` of an amount: non-negative and equal to the amount or its negation |
| UserRoutes.TotalLosses | server/routes/user.ts:40-42 | the total of the loss magnitudes is never negative |
| UserRoutes.WinsAndLossesPartition | server/routes/user.ts:35-48 | wins and losses together count every game of the history |
| UserRoutes.WinningsNonNegative | server/routes/user.ts:37-39 | a history whose wins have non-negative amounts has non-negative total winnings |
| UserRoutes.NetProfitIsNetFlow | server/routes/user.ts:37-52 | when losses are stored as non-positive amounts, the net profit is the sum of all the history's balance changes |
| UserRoutes.SettlementLossesNonPositive | server/utils/gameState.ts:144-157 | settlement stores every loss as a non-positive amount when bets are non-negative, so the profile's net profit is the net flow |
| UserRoutes.Fraction | server/routes/user.ts:49 | the win rate lies in [0, 1], times the number of games gives the wins, and is 0 for no games |
| UserRoutes.ProfileOf | server/routes/user.ts:33-54 | the profile has the caller's address and balance, the number of entries as games, the wins counted from the "win" entries, the "loss" entries as losses (so wins and losses add up to the games), the win rate as wins over games, the win and loss totals, and a net profit that is winnings minus losses |
| UserRoutes.ActiveSpan | server/routes/user.ts:124-125 | the day span is at least 1 and at least a fifth of the number of entries |
| UserRoutes.Quotient | server/routes/user.ts:125 | the quotient times the divisor gives back the dividend |
| UserRoutes.EarningsOf | server/routes/user.ts:100-127 | total earnings are the win total; the unclaimed part is a tenth of it, never negative; claiming is possible exactly when it is positive; staking, gaming and referrals are 30, 60 and 10 percent of it; the growth figures are the constants 12.5 and 5.2; the recent transactions are the last five entries (or all, if fewer); the active days lie in [1, 30] and the daily average is the total over the day span |
| UserRoutes.InventoryReply | server/routes/user.ts:62-87 | 401 exactly without a user; otherwise an empty inventory with zero counts |
| UserRoutes.ClaimReply | server/routes/user.ts:137-159 | 401 exactly without a user; otherwise a successful claim of 1.5 |
| UserRoutes.HistoryReply | server/routes/user.ts:5-21 | 401 exactly without a user; otherwise exactly the caller's entries of the history, in their order and as many as there are |
| UserRoutes.HandleGetUserProfile | server/routes/user.ts:23-59 | 401 without a user, changing nothing; otherwise the profile of the caller's history and balance, and only the caller's balance entry may be created, with the starting balance |
| UserRoutes.HandleGetUserEarnings | server/routes/user.ts:90-134 | 401 without a user, changing nothing; otherwise the earnings of the caller's history, with the same balance side effect as the profile |
| Leaderboard.ParseLimit | server/routes/leaderboard.ts:60 | the limit is at most 100, and 50 when the query reads as 0 or not as a number |
| Leaderboard.HexLimitOfQuery | server/routes/leaderboard.ts:60 | a `0x` query is read in hexadecimal and then clamped like a decimal one |
| Leaderboard.HexLimitExample | server/routes/leaderboard.ts:60 | `?limit=0x20` gives a limit of 32 |
| Leaderboard.LimitOfQuery | server/routes/leaderboard.ts:60 | no query gives 50; a rendered number `n` gives 50 for 0, `n` below 100, and 100 above |
| Leaderboard.NegativeLimitKept | server/routes/leaderboard.ts:60 | a negative number passes the clamp unchanged |
| Leaderboard.DisplayName | server/routes/leaderboard.ts:43 | a non-empty username is shown as it is; otherwise the first six characters of the wallet address (all, if shorter) followed by an ellipsis |
| Leaderboard.ToEntry | server/routes/leaderboard.ts:41-50 | an entry keeps the user's id and avatar, takes each stat from its row or 0 when the row is missing, and scores their sum |
| Leaderboard.ScoreOfStats | server/routes/leaderboard.ts:45-49 | a user without stats scores 0, and non-negative stats give a score at least each of them |
| Leaderboard.Entries | server/routes/leaderboard.ts:40-50 | every fetched row becomes its entry, in order |
| Leaderboard.Rank | server/routes/leaderboard.ts:53 | the entries are kept in order and ranked 1, 2, 3, … |
| Leaderboard.Shown | server/routes/leaderboard.ts:53 | the ranked list without its ranks is the entries, in order |
| Leaderboard.Board | server/routes/leaderboard.ts:31-54 | the board has as many entries as `slice(0, limit)` keeps, never more than a non-negative limit, and ranks 1, 2, 3, … |
| Leaderboard.BoardSorted | server/routes/leaderboard.ts:51 | the board is in descending order of score |
| Leaderboard.BoardIsSortedPrefix | server/routes/leaderboard.ts:51-52 | the board's entries are the first ones of the sorted entries |
| Leaderboard.BoardIsTop | server/routes/leaderboard.ts:51-52 | every fetched user left off the board scores no more than anyone on it |
| Leaderboard.BoardPermutes | server/routes/leaderboard.ts:40-53 | the board shows fetched entries only, none more often than fetched, and all of them once each when the limit covers every row |
| Leaderboard.NegativeLimitEmptiesBoard | server/routes/leaderboard.ts:52 | a negative limit at least as large in magnitude as the row count leaves the board empty |
| Leaderboard.LeaderboardRoute | server/routes/leaderboard.ts:59-63 | the route shows at most the fetched rows, and at most the parsed limit when it is not negative, which is at most 100 |
| Sorting.Insert | server/routes/leaderboard.ts:51 | inserting adds exactly the one element to the multiset |
| Sorting.InsertSorted | server/routes/leaderboard.ts:51 | inserting into a descending list keeps it descending |
| Sorting.SortDescSorted | server/routes/leaderboard.ts:51 | `sort((a, b) => key(b) - key(a))` leaves the list in descending order of the key |
| Sorting.SortDescPermutes | server/routes/leaderboard.ts:51 | the sorted list is a permutation of the input |
| Sorting.InsertStable | server/routes/leaderboard.ts:51 | inserting puts the new element before the elements of equal key and keeps their order |
| Sorting.SortDescStable | server/routes/leaderboard.ts:51 | the sort is stable: the elements of each key come out in the order they went in |
| Sorting.SortedInputUnchanged | server/routes/leaderboard.ts:51 | sorting a list already in descending order leaves it as it is, as the stable sort of the runtime does |
| LeaderboardPage.KeyOf | client/pages/Leaderboard.tsx:18-29 | each tab compares wins, APR, referral earnings or, by default, the total score |
| LeaderboardPage.SortedForTab | client/pages/Leaderboard.tsx:16-29 | the shown list is a permutation of the fetched entries in descending order of the tab's statistic, and empty without data |
| LeaderboardPage.OverallKeepsBoardOrder | client/pages/Leaderboard.tsx:18-29 | on the overall tab the page shows the route's board in its own order |
| GamingPage.Upsert | client/pages/Gaming.tsx:39-47 | a known id has every game with that id replaced by the new one and nothing else changed; an unknown id is appended; the new game is always in the list |
| GamingPage.OnLobbyMessage | client/pages/Gaming.tsx:32-48 | "games:list" replaces the list, "game:created" and "game:updated" upsert, and any other message leaves it |
| GamingPage.UpsertKeepsIdsDistinct | client/pages/Gaming.tsx:39-47 | upserting into a list with distinct ids keeps them distinct, and the only game with that id is the new one |
| GamingPage.UpsertIdempotent | client/pages/Gaming.tsx:39-47 | the same update received twice changes nothing the second time |
| GamingPage.JoinButtonBetAdmitted | client/pages/Gaming.tsx:80-83 | a join sent from the button, which is shown for a waiting game that is not full (lines 312-318), bets the lower end of the game's bet range and, from a player not yet in the game, passes the server's admission test |
| ShopPage.ShopItems | client/pages/Shop.tsx:51-52 | the API's list when it answered, even an empty one, and otherwise the local catalogue in order |
| ShopPage.FilteredItems | client/pages/Shop.tsx:79-87 | the shown items are a sublist of the shop items, and an item is shown exactly when its rarity matches the filter ignoring case (or the filter is "all") and its name contains the search text ignoring case; there are as many shown items as shop items that pass, duplicates included |
| ShopPage.AllAndEmptyShowEverything | client/pages/Shop.tsx:79-87 | filter "all" with an empty search shows every item, in order |
| ShopPage.FilterIgnoresCase | client/pages/Shop.tsx:82 | a filter and its lower-cased form show the same items |
| MyGiftsPage.FilteredItems | client/pages/MyGifts.tsx:88-92 | nothing without an inventory; otherwise a sublist of its items, keeping an item exactly when the filter is "all" or equals the lower-cased rarity, as many as pass, duplicates included |
| MyGiftsPage.AllShowsEverything | client/pages/MyGifts.tsx:90 | filter "all" shows the whole inventory, in order |
| MyGiftsPage.UpperCaseFilterShowsNothing | client/pages/MyGifts.tsx:91 | a filter other than "all" with an upper-case letter shows nothing |
| MyGiftsPage.TotalCoversShown | client/pages/MyGifts.tsx:88-98 | with non-negative prices the shown items are worth no more than the total value |
| MyGiftsPage.NoInventory | client/pages/MyGifts.tsx:88-98 | without an inventory nothing is shown and the total is 0 |
| OrderedMaps.Without | server/utils/gameState.ts:166 | deleting a key keeps exactly the other keys |
| OrderedMaps.WithoutDistinct | server/utils/gameState.ts:166 | deleting keeps the keys distinct |
| OrderedMaps.OMap.Get | server/utils/gameState.ts:40-42 | a lookup finds a value exactly for a stored key, and it is the stored one |
| OrderedMaps.OMap.Put | server/utils/gameState.ts:72 | `Map.set` stores the value, keeps a present key in its place and appends a new key at the end of the iteration order |
| OrderedMaps.OMap.Remove | server/utils/gameState.ts:166 | `Map.delete` drops the key from the entries and from the iteration order, keeping the rest in order |
| OrderedMaps.OMap.Values | server/utils/gameState.ts:81 | `values()` lists the stored values in key insertion order |
| OrderedMaps.Empty | server/utils/gameState.ts:40 | a new map is empty |
| OrderedMaps.PutPut | server/utils/gameState.ts:72 | setting a key twice is setting it to the last value |
| OrderedMaps.PutPresentKeepsOthers | server/utils/gameState.ts:201 | overwriting a present key leaves every other key's value and the iteration order alone |
| Seqs.Filter | server/routes/user.ts:36 | the filtered list is no longer than the input and holds only elements of it that pass the test |
| Seqs.FilterKeepsExactly | server/routes/user.ts:36 | an element is kept exactly when it is in the input and passes the test |
| Seqs.FilterIsSublist | server/routes/user.ts:36 | filtering keeps the input's order |
| Seqs.FilterAppend | server/routes/user.ts:36 | filtering a concatenation filters each part |
| Seqs.Count | server/routes/user.ts:36 | a count is at most the length |
| Seqs.CountIsFilterLength | server/routes/user.ts:36 | counting is the length of the filtered list |
| Seqs.SublistCountBound | server/routes/user.ts:36 | an ordered sublist whose elements all pass the test is no longer than the count of passing elements |
| Seqs.FilterCharacterised | server/routes/user.ts:36 | an ordered sublist whose elements all pass, and as many as pass, is the filtered list |
| Seqs.SumAppend | server/routes/user.ts:37-39 | `reduce` with `+` over a concatenation adds the parts' sums |
| Seqs.SumNonNegative | server/routes/user.ts:40-42 | non-negative summands give a non-negative sum |
| Seqs.SumFilterAtMost | client/pages/MyGifts.tsx:88-98 | with non-negative summands a filtered sum is at most the whole sum |
| Seqs.Find | server/services/telegramGifts.ts:274 | `find` answers an element that passes the test, and nothing exactly when none does |
| Seqs.FindIsFirst | server/services/telegramGifts.ts:274 | the element found is the first one that passes |
| Seqs.SliceEndSplits | server/routes/leaderboard.ts:52 | `slice(0, end)` keeps the first `end` elements and the rest follow them, keeps all of a sequence shorter than `end`, keeps everything but the last `-end` elements for a negative `end`, and nothing when `-end` exceeds the length |
| Seqs.Last | server/routes/user.ts:122 | `slice(-k)` is the last `k` elements, or all of them when fewer |
| Weighted.PrefixMonotone | shared/gameItems.ts:202-208 | with positive weights the running total strictly increases |
| Weighted.AtMostIndex | shared/gameItems.ts:202-208 | the index found is the first whose running total reaches the value, and none when no running total does |
| Weighted.BelowIndex | server/routes/roulette.ts:57-66 | the index found is the first whose running total exceeds the value, and none when no running total does |
| Weighted.AtMostInterval | shared/gameItems.ts:202-208 | the inclusive draw picks index `i` exactly when the value lies above the total before `i` and at most the total through `i` |
| Weighted.BelowInterval | server/routes/roulette.ts:57-66 | the strict draw picks index `i` exactly when the value lies at or above the total before `i` and below the total through `i` |

## Left out

- Cryptography is not modelled: HMAC-SHA512, SHA-256, Ed25519 verification, `randomBytes` and `randomUUID` are parameters with only their output sizes fixed.
- JWT signing and verification are not modelled: `verifyJWT` is an oracle that returns an address or nothing.
- `generateJWT` is not modelled, because it only calls the JWT library.
- Network and I/O are parameters:
  - the TonClient `get_public_key` call is the key it returns, or a failure;
  - the Telegram `fetch` is the list it returns, empty on any failure;
  - the Prisma `findMany` is the rows it returns;
  - WebSocket transport, JSON parsing and `readyState` are left out.
- Raw Telegram gift normalisation (server/services/telegramGifts.ts:182-195) is left out; already normalised gifts come in.
- Real time is explicit:
  - `Date.now` is the `now` parameter;
  - `setInterval` and `setTimeout` are explicit methods;
  - the sweep interval of the proof cache is a call to `Sweep`.
- `Math.random` is a parameter wherever it appears: the winner index, `getRandomItem`'s value, the client seeds and payload nonces.
- The random mock leaderboard (server/routes/leaderboard.ts:16-29) is not modelled, because no route reads it.
- Floating point is not modelled. Amounts are exact reals: 0.9 and 0.8 shares, stars / 10, decimal drop chances, and `%` on a fractional total.
- GameItems.RandomItem: IEEE rounding of `Math.random() * total` and of the running sum is not modelled.
- Roulette.Spin: `randomNumber % totalWeight` is modelled exactly on reals, as the whole number `randomNumber % 100`; a rounding of the floating-point total away from 100 is not modelled.
- Text.ParseInt and Leaderboard.ParseLimit: the loss of precision for numbers above 2^53 is not modelled; white space, the sign and the `0x` prefix are.
- `toLowerCase` is modelled with ASCII letters only.
- NaN and non-integer inputs are not modelled: a non-numeric `maxPlayers` or a fractional player count.
- Unreachable `catch` branches are left out: no core handler can throw on the modelled inputs.
- Toasts, rendering and React plumbing are not modelled, apart from the lists computed for display.
- WebSocket ping frames are not modelled: a heartbeat round only clears a live socket's `isAlive` flag (or terminates a socket whose flag is already clear), and nothing records that a ping went out.
- GameState.GameStateManager.FireTimer: its ensures describe only the purge of a finished game (server/utils/gameState.ts:165-167). The finish callback of a started game is `FinishGame`, whose own contract covers it.
- GameSocketClient.GameSocket.HandleClose: a new retry replaces one that is still pending, whereas in the browser both timers would fire. Each timer first increments `reconnectAttemptsRef` (useGameSocket.ts:105), so the source would count two attempts where the model counts one, and the second `connect` returns early only while the socket the first one made is still opening or open (after that socket has closed, it makes another).
- GameSocketClient.GameSocket.OnMessage: a frame that fails to parse is not modelled; messages arrive already decoded.
- The hook's auto-connect effect is not modelled, because it is disabled in the source; `Connect` is called explicitly.
- UserRoutes.HandleGetUserEarnings: the `period` query is read but unused. The balance is read, which records a starting balance, but it is not reported.
- The Leaderboard page sorts a copy: `SortDesc` returns a new sequence, so the fetched entries are never reordered.
- The Shop page keeps an empty API answer: it is truthy, so it is shown as it is (`ShopPage.ShopItems`).
- The MyGifts filter is not lower-cased, only the item's rarity is; `MyGiftsPage.UpperCaseFilterShowsNothing` states what follows.
- Leaderboard.LeaderboardRoute: a negative limit is passed to the database as it is. The model takes the returned rows, and `slice(0, limit)` then drops from the back (`Leaderboard.NegativeLimitEmptiesBoard`).
- `handleClaimEarnings` is modelled as following the code: the handler does check `req.user` (server/routes/user.ts:142-145).
- The TON Connect `ton_proof` scheme writes an 8-byte timestamp. The code writes 4 bytes (server/utils/auth.ts:64), and the model follows the code.
- `rollCount` is not validated (server/routes/roulette.ts:28). A negative count credits the caller (`Roulette.NegativeRollCountCredits`), and only one item is ever drawn.
- "game:starting" is never sent, because every started game has `startedAt` (server/websocket.ts:250, server/utils/gameState.ts:124). The broadcast model sends only updates and results.
- A cancelled game never gets `finishedAt` (server/utils/gameState.ts:242), so it is never reported as a result.
- A proof dated 300 s or more in the future passes the freshness check. Its signature can be reused once it leaves the replay window (`Auth.FutureProofReplayable`).
- Express wiring, helmet, CORS, rate limiting, sessions and server/routes/games.ts are left out. Sessions are a `Session` object per caller.
- Type-only files and the UI-only pages and components are not part of this model.

## Findings

| source | as written | input that shows it | evidently intended | confidence | as-written member | corrected member |
|---|---|---|---|---|---|---|
| server/routes/roulette.ts:56-66 | `randomNumber % totalWeight` is an integer below 100, walked against running totals with fractional parts | the items at indices 12, 14 and 15 sit at running totals 98.5-99.0, 99.5-99.8 and 99.8-100.0; no integer falls in those half-open intervals, so these items never drop whatever the seed | every item drops with its listed chance | not executed | Roulette.AsWrittenNeverDraws | Roulette.SpinDistribution (draw weight `R % 1000 / 10`, in `Roulette.CorrectedSpin`; `Roulette.HandleSpin` keeps the draw as written) |
| server/websocket.ts:52-57 | the close handler deletes `clients[address]` whatever socket that entry holds | socket A authenticates as `x`, socket B authenticates as `x` (replacing A), then A closes: `x` loses B's binding although B is open | a closing socket removes only its own binding | not executed | GameSocketServer.AsWrittenCloseUnbindsNewerSocket | GameSocketServer.CloseKeepsOthers (`Close`, in `GameWebSocketServer.OnCloseCorrected`; `GameWebSocketServer.OnClose` keeps the handler as written) |
