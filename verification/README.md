# Snake server verification

A Dafny model of a multiplayer snake game on a torus: its server, the replicas its clients keep,
and the libraries it is built on.

**The engine.** A tick processes up to 64 player slots in order. A player moves, follows another
snake's tail, eats, dies, spawns or leaves; every step updates one shared grid in place, together
with two derived structures, the cached head and tail of every snake and the changelog of the
tick. `Torus`, `Field`, `Flood` and `GameMapClass` hold the field and its searches, `Engine`
specifies a tick as a function of the state and the random picks, and `ServerClass` is the
imperative code proved against it. `Chains` and `Ticks` prove the invariant the code relies on
without checking it: every snake is a chain of distinct adjacent tiles with consecutive orders
between its cached tail and head, and the look-ahead "the other snake will vacate its tail" is
honoured later in the same tick. `Budget` derives from it that the changelog never overflows,
`TickReplay` that the log of a tick turns the old field into the new one, `Conservation` what
happens to fruits, walls and lengths, and `Runs` lifts the results to runs in which clients
register, pause, respawn and leave between (and, since the slot locks are released before the
sweep, within) ticks. `SlotWindow` says what such a client finds of the last player of its slot,
and `Completion` that a tick that has begun comes to its end or to the exit.

One event breaks the invariant, and only that one: a snake eats a fruit after another snake has
taken its tail. It needs a fruit that appears in mid-tick, which only a joining player brings
(`Ticks.HazardCause`). One-tick results say so in an "if and only if" (`Ticks.PlayersKeepSnakes`),
and the run results about snakes assume that it does not happen (`Runs.NoHazards`).
`HazardExample` constructs, from the scenes of `Scenes`, a run of a fresh server in which it does
happen, and follows it until the snake concerned makes the server exit.

After a hazard the server goes on, with snakes that are not well formed. `Exits` and the results
of `Runs` that say "hazards or not" are about all runs: no step loses a tile or slot the engine
looks up, every tick ends or takes the exit, and it takes the exit exactly when a snake is
stranded.

`Survival` says for every status what becomes of a slot, in terms of tiles, caches and statuses
alone; `Operations` and `Ledger` what the operations of clients lead to in a run.

**The replicas.** `Mirrors` models the sending thread, which chooses between the whole field and
the changelog by the number of ticks passed; `Rendering` and `RenderProtocol` the client's render
queue and drawing thread; `Wire`, `WireIO` and `ClientFeed` the bytes in between. `EndToEnd` puts
them together: a quiet screen shows a field of the server, for all interleavings in which no
version is skipped when a log is copied, and `LateLog` constructs one with a late copy in which
the client's field is wrong. Code under a lock is one atomic step, and `Locks` shows that the
locks are taken in one order and that no circular wait arises.

**The libraries.** `HashMaps` and `ArgParsing` model the option parser with its hash map, and
`Launcher` the settings that travel through an argument vector; `Presenting` (with `Display`,
which follows the tiles of the game to the terminal), `CapTries` and `Utf8` the screen update, the
escape-sequence trie and the UTF-8 codec of the terminal library (the codec covers the five- and
six-byte forms of section 2 of RFC 2279).

Classes and methods with loops model code that works in place; each is proved against a function
or a mathematical value, and the lemmas are about those. Random draws are arbitrary values in
range. Sizes of the field are those `libsnake/constants.h` allows: widths 10 to 100, heights 10 to
50. Field orders, tick numbers and table sizes are unbounded integers; where the source's integer
width matters (hashes, casts of settings, wire fields, code points, attributes) it is written out.

Documentation and code differ in one place: the comment in `server/server.c:108` says that a
missing tail tile "should not happen". `Exits.ExitIff` says exactly when it does, for any state.
It cannot happen in a run without a hazard (`Runs.RunNeverExits`); after a hazard it can
(`HazardExample.ExitIsReachable`).

## Model

| member | source | states |
|---|---|---|
| Torus.MoveFacts | libsnake/map/map.c:91-111 | a step and the opposite step cancel; on a field within the limits a step never stays in place and the four directions lead to four different tiles |
| Torus.MoveGeometry | libsnake/map/map.c:91-111 | in coordinates, for each direction: up and down change the row by one, left and right the column, wrapping around, and the other coordinate stays |
| Torus.Connected | libsnake/map/map.c:91-111 | the torus is connected: a set of tiles closed under steps with one tile of the field holds every tile |
| Torus.IndexFacts | libsnake/map/map.c:172-177 | the row-major index stays inside a buffer of width * height flags and tells tiles apart |
| Torus.CountAll | libsnake/map/map.c:211-216 | the field has exactly width * height tiles |
| Field.LowestNeighborFound | libsnake/map/map.c:113-139 | a neighbour of the player whose order is below that of all the player's other tiles is the one found, whatever the scanning order |
| Field.LowestNeighborComplete | libsnake/map/map.c:113-139 | the scan finds a neighbour if and only if some neighbour belongs to the player |
| Field.LowestNeighborIsFirst | libsnake/map/map.c:113-139 | the neighbour found has the lowest order, and comes first in the order up, down, left, right among those that share it |
| Field.EmptyNeighborComplete | libsnake/map/map.c:141-163 | an empty neighbour is found if and only if there is one, and what is found is empty |
| Field.EmptyNeighborIsFirst | libsnake/map/map.c:141-163 | the empty neighbour found comes first in the order up, down, left, right |
| Flood.MarkSeals | libsnake/map/map.c:77-89 | after the flood no killed tile has a neighbour still owned by the player |
| Flood.FloodIsExact | libsnake/map/map.c:77-89 | the flood kills a tile if and only if a walk over the player's tiles links it to the start, and leaves every other tile unchanged |
| GameMapClass.UniformDist | libsnake/rng.c:10-12 | any value of the range, and none outside it |
| GameMapClass.GameMap.FromTemplate | libsnake/map/map.c:16-28 | the field has walls exactly where the template has them and is empty elsewhere |
| GameMapClass.GameMap.SetKind | libsnake/map/map.c:54-56 | in place: the kind of one tile, its order and player kept, no other tile |
| GameMapClass.GameMap.SetBody | libsnake/map/map.c:58-63 | in place: one tile becomes a body tile with the given player and order, no other tile changes |
| GameMapClass.GameMap.MarkPlayerAsDead | libsnake/map/map.c:77-89 | the in-place recursion terminates and computes the flood of Flood.FloodIsExact |
| GameMapClass.GameMap.Shuffle | libsnake/map/map.c:185-195 | whatever the random exchanges, all four directions remain |
| GameMapClass.GameMap.Search | libsnake/map/map.c:172-206 | a success returns a matching tile; a failed search has visited its start, and everything it added holds no match and leads only to visited tiles |
| GameMapClass.GameMap.SearchNeighbors | libsnake/map/map.c:197-205 | the same for the loop over the shuffled neighbours |
| GameMapClass.GameMap.FindRandomMatching | libsnake/map/map.c:208-226 | for every predicate and all random draws the search terminates and succeeds if and only if a matching tile exists |
| Changes.ReplayAt | libsnake/changelog/syn_changelog.c:28-41 | what a replay leaves on a tile depends on the field before only if the log never mentions the tile |
| Changes.ReplayIdempotent | libsnake/changelog/syn_changelog.c:28-41 | replaying a log a second time changes nothing |
| Chains.SecondTileIsLowest | server/server.c:106-110 | once the head has moved and the tail tile is cleared, the second tile of the body is the neighbour the tail search finds |
| Chains.AdvanceFindsTail | server/server.c:83-114 | from well-formed snakes the branch "failed to find next snake tail tile" is dead, also when the tail was taken by another snake or by the own head; gives every tile, head and tail afterwards |
| Chains.AdvanceKeepsChain | server/server.c:83-114 | moving head and tail shifts the body by one tile: distinct adjacent tiles, consecutive orders, cached ends; others are touched only as the look-ahead allows |
| Chains.EatKeepsChain | server/server.c:205-212 | eating extends the body by the fruit tile and keeps it a chain |
| Chains.KillTakesWholeBody | server/server.c:116-121 | the flood from the cached head of a well-formed snake kills every tile of the snake and no other tile |
| Chains.SpawnKeepsInv | server/server.c:142-163 | a spawned snake is a chain of two tiles facing away from its tail, and all snakes stay well formed |
| Chains.OthersKeepBodies | server/server.c:213-241 | a step of one player leaves every other body as it was, except that the tail of a player still to be processed and not paused may be taken |
| Chains.StepKeepsInv | server/server.c:169-248 | for every state of well-formed snakes and all random picks, processing one player does not exit, keeps every snake a chain, and leaves the player's cached tail on a foreign tile exactly in the hazardous case (a fruit eaten after the tail was taken) |
| Ticks.NobodyConnected | server/server.c:25-71 | a field without snakes and without clients is well formed |
| Ticks.TraceKeepsInv | libsnake/player/player_manager.c:102-108 | after any number of processed players the invariant holds, and the processed players with taken tails are exactly those whose step was hazardous |
| Ticks.TraceNeverExits | server/server.c:106-110 | at every point of the loop over the players, whatever the random picks, the next player is processed without exit |
| Ticks.PlayersKeepSnakes | server/server.c:250-266 | the loop over the players leaves well-formed snakes if and only if no snake ate a fruit after its tail had been taken |
| Ticks.NoJoinNoHazard | server/server.c:172-180 | a tick in which nobody is joining has no hazard |
| Ticks.HazardCause | server/server.c:172-241 | the exact cause of a hazard: a snake is hazardous when processed if and only if it is playing, a fruit lies ahead of it, and an earlier player of the same tick joined after its tail was taken and put that fruit there |
| Ticks.UntouchedBetween | server/server.c:224-241 | while other players are processed, a player's slot, cached ends and body stay as they are; a look-ahead stays valid until the player moves |
| Ticks.SweepFacts | server/server.c:268-282 | the sweep empties exactly the dead tiles and touches nothing else but the log |
| Ticks.FieldKeepsSnakes | server/server.c:268-286 | sweep and new fruits keep the snakes and leave no dead tile |
| Ticks.DeathsAreFlagged | server/server.c:116-121 | a dead tile appears only together with the flag that triggers the sweep |
| Ticks.NoneAliveMeansNoneActive | server/server.c:179-247 | the flag whose negation server_tick returns is set exactly if no processed player is playing or paused |
| HazardExample.HazardBreaksSnakes | server/server.c:172-180 | a run of a fresh server: without a hazard and with well-formed snakes up to its last tick, and with a hazard and snakes that are not well formed after it; the hypothesis of the run results is needed |
| HazardExample.ExitIsReachable | server/server.c:106-110 | a run of a fresh server, through a hazard, up to a tick in which player 2 is stranded and processing it takes the exit "failed to find next snake tail tile" |
| Exits.ExitIff | server/server.c:83-114 | for every state in which the lookups are possible, well formed or not, and all picks: processing a player exits if and only if it is playing, may enter the tile ahead without growing, that tile does not touch its cached tail, and no neighbour of that tail is its own |
| Exits.StepIsLocal | server/server.c:169-248 | from every such state a step changes no other slot and no other cached end, gives tiles to its own player only, and leaves a state in which the lookups are possible again |
| Survival.SurvivesIff | server/server.c:199-241 | a playing snake that is processed lives on, one tile ahead, if and only if that tile is empty, a fruit, its own tail, or the tail of a later snake that is not paused and looks at an empty tile; otherwise it is dead |
| Survival.JoinsIff | server/server.c:172-187 | a joining or respawning player plays afterwards if and only if some empty tile has an empty neighbour; otherwise it is dead |
| Survival.WhoSurvivesTick | libsnake/player/player_manager.c:97-113 | what a whole tick makes of every slot of every status, from any state in which the lookups are possible, in terms of the field when its turn comes |
| Survival.WhoSurvivesAmongSnakes | server/server.c:213-241 | from well-formed snakes a playing snake survives the tick if and only if, when its turn comes, the tile ahead is empty, a fruit, its own tail, or the tail of a later snake, playing or disconnecting, whose own way is empty |
| Budget.StepCost | server/server.c:169-248 | one player adds to log entries plus fruits owed at most three if it lives on or spawns, none if it dies |
| Budget.FieldCapacity | server/server.c:268-282 | two tiles for each living snake and all dead tiles fit into the field together |
| Budget.SweepCost | server/server.c:272-281 | the sweep logs each dead tile exactly once |
| Budget.PlayersLeaveRoom | server/server.c:266-286 | when the players have been processed, the log, the fruits owed and the dead tiles together are at most width * height + MAX_PLAYERS |
| Budget.ChangelogNeverOverflows | libsnake/changelog/changelog.c:11-16 | from well-formed snakes no state of a tick holds more changes than MAX_CHANGELOG_SIZE, whatever the picks and the slot changes during the sweep |
| Budget.AmpleLeavesRoom | server/server.c:266-282 | from well-formed snakes, or on a field small enough, what is owed and the dead tiles fit the changelog when the players have been processed |
| TickReplay.ReplayGivesNextField | server/server.c:250-286 | replaying the log of a tick over the field before it gives the field after it, in kind, player and order of every tile; no dead tile is left |
| Conservation.FruitsAndWallsKept | server/server.c:284-286 | after a tick there are exactly as many fruits as before and as joining players have brought, or fewer and no tile is empty; the walls are where they were |
| Conservation.LengthsKept | server/server.c:201-212 | in a tick without a hazard a surviving snake that plays gains the tile ahead of its head and loses its tail unless that tile was a fruit; one that is paused keeps its body |
| ServerClass.Changelog.Clear | libsnake/changelog/changelog.c:7-9 | in place: the log becomes empty |
| ServerClass.Changelog.Push | libsnake/changelog/changelog.c:11-16 | in place: one entry is appended; needs a free entry, which Budget shows there always is |
| ServerClass.PlayerManager.constructor | libsnake/player/player_manager.c:3-8 | all slots start not connected |
| ServerClass.PlayerManager.Register | libsnake/player/player_manager.c:16-33 | takes the first free slot, sets it to joining and facing up, and changes no other; fails exactly if no slot is free |
| ServerClass.PlayerManager.Unregister | libsnake/player/player_manager.c:35-43 | a living or not connected player starts disconnecting, any other becomes not connected; no other slot changes |
| ServerClass.PlayerManager.Switch | libsnake/player/player_manager.c:45-73 | what pause, unpause and respawn have in common: the status changes only from the one expected |
| ServerClass.PlayerManager.Pause | libsnake/player/player_manager.c:45-53 | in place: the slot changes as Operations.Operate says for pausing, no other does |
| ServerClass.PlayerManager.Unpause | libsnake/player/player_manager.c:55-63 | in place: the same for unpausing |
| ServerClass.PlayerManager.Respawn | libsnake/player/player_manager.c:65-73 | in place: the same for respawning |
| ServerClass.PlayerManager.Turn | libsnake/player/player_manager.c:91-95 | in place: the same for turning |
| Operations.PauseUndone | libsnake/player/player_manager.c:45-63 | pausing changes exactly a playing player and unpausing exactly a paused one, and they undo each other |
| Operations.WhoWaits | libsnake/player/player_manager.c:16-73 | a player is joining only after registering, and respawning only after a dead player asked for it |
| ServerClass.Server.constructor | server/server.c:25-71 | a new server has well-formed snakes (none), an empty log and no dead tile, so the first tick may run |
| ServerClass.Server.SetHead | server/player_data_cache.c:11-13 | in place: one cached head, nothing else |
| ServerClass.Server.SetTail | server/player_data_cache.c:15-17 | in place: one cached tail, nothing else |
| ServerClass.Server.MoveHead | server/server.c:83-89 | the objects updated in place hold the state Engine.MoveHead specifies |
| ServerClass.Server.MoveTail | server/server.c:91-114 | in place: the new state or the exit that Engine.MoveTail specifies |
| ServerClass.Server.Kill | server/server.c:116-121 | in place: the flood, the status and the death flag |
| ServerClass.Server.SpawnFruit | server/server.c:127-134 | in place: a fruit on some empty tile, and none only if no tile is empty |
| ServerClass.Server.SpawnPlayer | server/server.c:142-163 | in place: a two-tile snake on a tile with an empty neighbour, and none only if there is no such tile |
| ServerClass.Server.MayEnter | server/server.c:213-241 | the test of the source for stepping onto a body tile agrees with MayFollow on the current state |
| ServerClass.Server.Play | server/server.c:201-247 | in place: the playing branch as Engine.Play specifies it |
| ServerClass.Server.Join | server/server.c:172-184 | in place: the spawning branch for picks that the complete search allows |
| ServerClass.Server.ProcessPlayer | server/server.c:169-248 | in place: one call as Engine.ProcessPlayer specifies it, with some allowed picks |
| ServerClass.Server.ProcessPlayers | libsnake/player/player_manager.c:97-113 | in place: all slots in order up to the end or to the exit, from any state in which the lookups are possible; the changelog always has room |
| ServerClass.Server.SweepField | server/server.c:268-282 | in place: the two nested loops compute Engine.Sweep and never overrun the changelog |
| ServerClass.Server.RefillFruits | server/server.c:284-286 | in place: one fruit attempt for each fruit eaten |
| ServerClass.Server.Tick | server/server.c:250-293 | in place: a whole tick as TickPlayers followed by TickField, returning whether a player is alive, or the part of one up to the exit; from well-formed snakes it never exits |
| Runs.RunIsGood | server/server.c:250-293 | over every run of ticks interleaved with clients' slot operations (no hazard): snakes well formed, slots agree with their holders, no dead tile between ticks, and room in the log before the sweep |
| Runs.OwnsTilesIffAlive | libsnake/player/player_manager.c:16-73 | in every such run a player owns tiles exactly while it is playing, paused or disconnecting |
| Runs.RegisterTakesFreeSlot | libsnake/player/player_manager.c:16-43 | in every such run a slot is handed out only when nobody holds it and no body tile of it is left; SlotWindow says when dead tiles are left |
| Runs.RunNeverExits | server/server.c:106-110 | at every tick of every such run, and at every point of the loop over the players, the random searches have an outcome, and for each outcome the next player is processed without exit |
| Runs.RunIsSteady | server/server.c:250-293 | over every run, hazards or not, the slots agree with their holders, and every head, tail and owner the engine looks up is inside the field and the slots |
| Runs.RunExitsIffStranded | server/server.c:106-110 | at every point of every tick of every run, hazards or not, the searches have an outcome, and for each outcome the process exits if and only if the next player is stranded |
| Runs.TickCompletesOrExits | server/server.c:250-266 | over every run, hazards or not, a loop over the players that has begun can be continued to its end or to the exit |
| Runs.SweepCompletes | server/server.c:268-293 | over every run, hazards or not, the sweep and the new fruits can always be completed |
| Runs.RunKeepsDims | server/server.c:250-293 | over every run, hazards or not, the size of the field never changes |
| Completion.SomePlayers | libsnake/player/player_manager.c:97-113 | from well-formed snakes the loop over the players can be completed: the results about ticks are about ticks that exist |
| SlotWindow.PlayersLeaveDead | libsnake/player/player_manager.c:97-113 | when the slots are released, dead tiles of a player lie on the field if and only if it was alive when the tick began and is no longer |
| SlotWindow.RegisterBetweenTicksFindsNothing | server/server.c:266-282 | in every such run a slot handed out between ticks has neither a body tile nor a dead tile left |
| SlotWindow.RegisterBeforeSweepFindsDead | server/server.c:266-282 | between the release of the slots and the sweep, whatever the clients do, dead tiles of a slot are on the field if and only if its player died in this tick |
| SinglePlayer.SlotHandedOutBeforeSweep | server/server.c:266-282 | a run without a hazard in which a slot is handed out while dead tiles of its last player are on the field |
| Runs.RunKeepsWalls | server/server.c:250-293 | over every run, hazards or not, the set of walls never changes |
| Runs.RunNeverOverflows | libsnake/changelog/changelog.c:11-16 | in every such run no state of any tick holds more changes than the changelog |
| Runs.SmallFieldNeverOverflows | libsnake/changelog/changelog.c:11-16 | over every run, hazards or not, the loop over the players logs at most three changes for each slot, and on a field at least 2 * MAX_PLAYERS tiles smaller than the largest the whole tick fits the changelog |
| Ledger.FruitsComeFromRegistering | server/server.c:172-180 | over every run, hazards or not: the fruits on the field, those owed to it and the players about to join are never more than the clients that have registered; respawning brings no fruit |
| Ledger.MovesAgain | libsnake/player/player_manager.c:55-63 | over every run: after an unpause or a turn a player moves its head one tile in its direction in the next tick, or dies in it |
| Ledger.PausedRests | libsnake/player/player_manager.c:45-53 | over every run: after a pause a player keeps head, tail and direction in the next tick, and lives |
| Ledger.RespawnsAlone | libsnake/player/player_manager.c:65-73 | over every run: a dead player that respawns plays after the next tick if and only if there is a place when its turn comes, and brings no fruit |
| Histories.RunPublishesHistory | server/server.c:250-290 | the fields and logs published by any run form a history in which each log turns one field into the next |
| Mirrors.Ticker.Tick | libsnake/ticker.c:15-20 | in place: the counter goes up by one |
| Mirrors.TickerObserver.constructor | libsnake/ticker.c:22-28 | starts from the current tick |
| Mirrors.TickerObserver.WaitForNextTick | libsnake/ticker.c:30-42 | in place: returns the number of ticks since the last return, at least one, and remembers the current one |
| Mirrors.MirrorStaysInStep | server/client_connection.c:95-122 | in every schedule in which no version lies between the one the mirror shows and the one whose log is copied, the mirror after every message is the server's field of a version no earlier than the tick last observed |
| Mirrors.PromptIsTimely | server/client_connection.c:102-121 | a log copied while its version is still the tick observed meets that condition |
| Mirrors.MirrorFollowsRun | server/client_connection.c:95-122 | the same for the history of any run of the game |
| Mirrors.LogFitsExactlyNextVersion | libsnake/changelog/syn_changelog.c:6-22 | the log of a version brings an older mirror up to date for every history, of a run or not, if and only if no version in between was skipped |
| LateLog.LateLogDiverges | server/client_connection.c:102-121 | a run without a hazard, its published history, and a schedule in which only the last log is copied late: the mirror is then none of the fields since the tick last observed |
| LinkedQueue.Queue.Push | libsnake/queue.h:36-48 | in place: appends to the contents, also after the tail pointer was left dangling |
| LinkedQueue.Queue.Pop | libsnake/queue.h:50-59 | in place: removes and returns the first item; fails exactly on the empty queue |
| LinkedQueue.Queue.Clear | libsnake/queue.h:61-70 | in place: the queue is empty afterwards |
| Rendering.Renderer.RequestRedraw | client/renderer/renderer.c:134-145 | in place: the queue holds the one redraw |
| Rendering.Renderer.RequestUpdate | client/renderer/renderer.c:147-158 | in place: the update is appended, and a redraw is still only ever first |
| Rendering.Renderer.RedrawScreen | client/renderer/renderer.c:36-50 | the nested loops draw exactly the picture of the field |
| Rendering.Renderer.Drain | client/renderer/renderer.c:108-110 | the draining loop carries out every queued command as an update, in order, and empties the queue |
| Rendering.Renderer.DrawNext | client/renderer/renderer.c:99-113 | one iteration of the drawing thread: a redraw alone, or all queued updates |
| Rendering.DrawConcat | client/renderer/renderer.c:108-110 | drawing two queues one after the other is drawing their concatenation |
| Rendering.PictureReads | client/renderer/renderer.c:14-34 | a picture can be read by the legend: * exactly for a snake, # exactly for a wall, O exactly for a fruit, blank otherwise; a snake in the colour of its player modulo six, from red to cyan, all else in the default colour |
| RenderProtocol.RunStaysCoherent | client/socket_client.c:184-215 | over every interleaving of field writes, requests, resizes and draws, from any field and screen: once a redraw has been asked for, a redraw is only ever first, and carrying out what is queued and owed would show the field |
| RenderProtocol.QuiescentScreenShowsField | client/renderer/renderer.c:84-117 | whenever, after the first redraw asked for, nothing is queued and no request is owed, the screen shows the client's field |
| RenderProtocol.QuiescentScreenReads | client/renderer/renderer.c:84-117 | then the field of the client can be read off the screen by that legend |
| Wire.MessageRoundTrip | libsnake/socket/socket_message.c:166-330 | reading a serialized message returns it and leaves exactly the bytes after it, for every message with in-range fields |
| Wire.StreamRoundTrip | libsnake/socket/socket_message.c:166-330 | any sequence of messages is read back from the concatenated bytes, with nothing left |
| Wire.LittleAt | libsnake/socket/socket_message.c:116-131 | byte i of an integer has the weight 256^i |
| Wire.ChangeLayout | libsnake/socket/socket_message.c:112-164 | the twenty bytes of a tile change: type 4, row, column, order, kind and player at their places, each integer least significant byte first |
| Wire.MapLayout | libsnake/socket/socket_message.c:133-145 | the bytes of a field: type 3, width, height, and each tile at its place |
| Wire.ShortLayouts | libsnake/socket/socket_message.c:112-164 | the bytes of every other message, with the numbers of their types |
| WireIO.KindNumbers | libsnake/map/map.h:13-19 | the numbers of the kinds of tiles; order and player travel as they are |
| WireIO.SizeIsExact | libsnake/socket/socket_message.c:82-110 | the computed length is the number of bytes written |
| WireIO.Writer.PutLittle | libsnake/socket/socket_message.c:116-131 | in place: the little-endian bytes of an integer are written behind the moving pointer |
| WireIO.Writer.PutPayload | libsnake/socket/socket_message.c:112-164 | in place: the payload bytes are written and the pointer ends at the computed size |
| WireIO.Serialize | libsnake/socket/socket_message.c:166-185 | the buffer holds exactly the bytes of the message |
| WireIO.Socket.ReadMap | libsnake/socket/socket_message.c:222-255 | reads dimensions and tiles as the specification parses them, including the failures |
| WireIO.Socket.Deserialize | libsnake/socket/socket_message.c:301-330 | reads one message or fails exactly as the specification parses, and consumes exactly its bytes |
| WireIO.InitMap | libsnake/socket/socket_message.c:21-38 | the message lists every tile of the field at its row-major position |
| WireIO.SetTileState | libsnake/map/map.c:42-44 | in place: one tile, nothing else, also while the size is outside the limits |
| WireIO.DeserializeToMap | libsnake/socket/socket_message.c:332-347 | in place: every tile inside the dimensions comes from its row-major position of the message, no tile outside them changes, and nothing happens for another type of message |
| WireIO.FieldMessageArrives | libsnake/socket/socket_message.c:133-145 | the message made of a field is in range and arrives unchanged |
| WireIO.FilledFieldIsSame | libsnake/socket/socket_message.c:332-347 | field to message to field is the identity on all tiles |
| ClientFeed.LogArrives | server/client_connection.c:44-73 | the messages of a log are read back one by one from the bytes sent |
| ClientFeed.ApplyMessages | client/socket_client.c:194-204 | applying the messages of a log leaves the client's field as the replay of the log over it |
| Parcels.EncodedArrives | libsnake/socket/socket_message.c:301-330 | a message of the sending thread is read back from the front of the bytes on their way, whatever follows |
| Parcels.DeliverLog | client/socket_client.c:194-204 | handling the messages of a log one by one has the effect of replaying the log |
| EndToEnd.CourseStaysSound | server/client_connection.c:83-132 | over every interleaving of server, sending thread, message loop, resizes and drawing thread: the bytes on their way are those of whole messages, and delivering them turns the client's field into the mirror of the sending thread |
| EndToEnd.QuietScreenShowsServerField | server/client_connection.c:95-122 | whenever no byte is on its way and nothing is queued or owed at the client, its screen shows the server's field of a version no earlier than the tick last observed |
| EndToEnd.QuietScreenReads | client/renderer/renderer.c:14-34 | then the field of the server can be read off the screen by that legend |
| EndToEnd.QuietScreenShowsRun | client/renderer/renderer.c:84-117 | the same for the fields and logs published by any run of the game whose numbers fit their types on the wire |
| EndToEnd.ReceiveIsPossible | client/socket_client.c:154-215 | in every such interleaving the message loop can always handle the next message when bytes are on their way |
| Hashing.HashString | libargs/args.c:68-76 | the loop computes the FNV-1a hash modulo 2^32 |
| Hashing.XorBit | libargs/args.c:68-76 | every bit of the exclusive or is the sum of the two bits without the carry |
| Hashing.KnownHashes | libargs/args.c:68-76 | the hash gives published FNV-1a values |
| Hashing.MaskIsRemainder | libargs/args.c:209-212 | for a power of two, masking with capacity - 1 is the remainder |
| Probing.FoundDecides | libargs/args.c:209-223 | a search that ends at a free slot proves the key absent, one that ends at a used slot has found its value |
| Probing.WriteRepresents | libargs/args.c:276-299 | writing at the slot where the search ended adds or replaces exactly that key and keeps every key on an unbroken run from its home |
| HashMaps.HashMap.Find | libargs/args.c:209-223 | terminates, at the key or at a free slot with only other keys on the way |
| HashMaps.HashMap.Get | libargs/args.c:261-271 | finds a key if and only if the mathematical map has it, with its value |
| HashMaps.HashMap.Grow | libargs/args.c:226-258 | in place: the table doubles (at least 8 slots), the map is unchanged, and there is room for another key |
| HashMaps.HashMap.Set | libargs/args.c:276-299 | in place: the map is updated at one key; capacity stays zero or a power of two and at most half of the table is in use |
| HashMaps.HashMap.SetSplitKey | libargs/args.c:304-338 | in place: the map is updated at every space-separated word of the key string |
| HashMaps.NextWord | libargs/args.c:319-333 | the loop over a key string meets its words one after the other |
| Integers.IntRoundTrip | libargs/args.c:80-91 | parsing the decimal print of any int returns it |
| Integers.DecimalParsed | libargs/args.c:80-91 | digits without a leading zero are read in base ten, or rejected if the number is no int |
| Integers.NegativeParsed | libargs/args.c:80-91 | the same behind a minus sign |
| Integers.TrailingRejected | libargs/args.c:80-91 | anything behind the digits is an error, and no text at all reads as zero |
| Integers.IntFits | client/server_launcher.c:28-30 | the print of any int and its terminator fit the 16-byte buffer |
| ArgParsing.ArgParser.AddOption | libargs/args.c:807-827 | in place: a new option under each of its names |
| ArgParsing.ArgParser.TakeValue | libargs/args.c:395-409 | in place: a string is taken as it is, an integer parsed; a malformed or out-of-range integer ends the process |
| ArgParsing.ArgParser.HandleShort | libargs/args.c:1199-1247 | in place: each letter names an option that takes the next argument; unknown letters and missing arguments end the process, as ShortOptions specifies |
| ArgParsing.ArgParser.HandleLong | libargs/args.c:1156-1195 | in place: the same for a name after two dashes |
| ArgParsing.ArgParser.HandleEquals | libargs/args.c:1110-1152 | in place: name=value with the first equals sign; an empty value ends the process |
| ArgParsing.ArgParser.ParseStream | libargs/args.c:1251-1341 | in place: the loop over the arguments computes ParseAll |
| Launcher.BuildArguments | client/server_launcher.c:25-61 | the vector and its terminator fit the 13 entries, and the entries are those Launcher.Arguments gives |
| Launcher.ParseArguments | server/argument_parser.c:18-56 | registration, parsing and collection compute ParseSettings, for every argument vector |
| Launcher.PairParsed | libargs/args.c:1199-1247 | a registered letter takes the next argument whatever its text, even one that starts with a dash |
| Launcher.SpelledParsed | libargs/args.c:1110-1247 | an option is understood as letter and value, as name and value, and as name=value |
| Launcher.EmptyValueExits | libargs/args.c:1110-1152 | an equals sign with nothing behind it ends the process |
| Launcher.PositionalKept | libargs/args.c:1251-1341 | arguments that are no options, and all behind two dashes, are kept apart and change no option |
| Launcher.UnknownExits | libargs/args.c:1156-1247 | an unknown name or letter ends the process, with success only if it asks for help |
| Launcher.ParsedSettings | server/argument_parser.c:34-55 | what the server makes of the arguments of any settings, with every option in any of its three forms: rejected without room name and port; sizes lost beside a map path; otherwise the same settings |
| Launcher.CommandLine | client/server_launcher.c:34-61 | the settings of a command line written out with letters |
| Launcher.NamedCommandLine | server/argument_parser.c:18-56 | the settings of the same command line written out with names and equals signs |
| Launcher.LaunchRoundTripIff | client/server_launcher.c:34-61 | launching and parsing undo each other if and only if there is a room name or a port, and no size is given beside a map path |
| Launcher.MenuRoundTrip | client/menu/host_menu.c:18-152 | whatever is typed into the host menu, the server starts with it: room name, port and path unless empty, and without a path the width and the height typed if they are within the limits, otherwise the nearest limit |
| Launcher.ClampNearest | client/menu/host_menu.c:8-16 | a size within the limits stays, any other becomes the nearest limit |
| Presenting.Screen.SendAttr | libtermbox2/termbox2.h:3052-3163 | the terminal draws in the new attributes afterwards, whatever it drew in before: each flag on exactly with its bit, and the colours the entries of the palette that the attributes name, bright exactly with TB_BRIGHT; nothing is sent if they are the last ones sent, and only then must the terminal draw in them already |
| Presenting.LookDraws | libtermbox2/termbox2.h:3069-3074 | interpreting the colour codes sent gives the palette entries the two attributes name |
| Presenting.Screen.ShownReads | libtermbox2/termbox2.h:1663-1714 | of every cell shown the character and the attributes can be read off the terminal |
| Display.TilesOnTerminal | client/renderer/renderer.c:27-34 | after an update every tile of the game is on the terminal, one column and one row further on, with the character and palette colour of the legend |
| Presenting.Screen.SendCursorIf | libtermbox2/termbox2.h:3237-3249 | the cursor is placed if both coordinates are non-negative, otherwise nothing is sent |
| Presenting.Screen.SendChar | libtermbox2/termbox2.h:3251-3276 | the character appears in the right cell although the cursor move is skipped after the left neighbour |
| Presenting.Screen.PresentCell | libtermbox2/termbox2.h:1663-1714 | a cell is sent only if it differs, and the terminal goes on showing the front buffer |
| Presenting.Screen.Present | libtermbox2/termbox2.h:1650-1722 | if the terminal shows the front buffer, after the tokens sent it shows the back buffer, front equals back, and the terminal is ready for the next update |
| Presenting.Screen.SendClear | libtermbox2/termbox2.h:2320-2334 | the clearing sent at the start leaves the terminal ready for an update, whatever it showed and drew in before |
| Presenting.Screen.Invalidate | libtermbox2/termbox2.h:1724-1729 | the front buffer and the terminal are cleared together, and the terminal is ready for the next update |
| Presenting.StartAndPresent | libtermbox2/termbox2.h:1598-1722 | from a terminal in any state, the tokens of the first clearing and the first update leave it showing the back buffer |
| CapTries.SpelledIffBegins | libtermbox2/termbox2.h:2205-2248 | a node spells a string if and only if the string is empty or begins an added capability |
| CapTries.CapTrie.Find | libtermbox2/termbox2.h:2250-2279 | stops at the deepest node spelled by a beginning of the input |
| CapTries.CapTrie.Add | libtermbox2/termbox2.h:2205-2248 | in place: the first addition of a string wins, a second one is reported, and empty strings are ignored |
| CapTries.CapTrie.ExtractEscCap | libtermbox2/termbox2.h:2830-2851 | succeeds with the key of the first addition if the longest matching beginning was added, asks for more input exactly if all input is a proper beginning, otherwise fails |
| CapTries.WholeKey | libtermbox2/termbox2.h:2830-2851 | a sequence that begins no longer one gives its key, whatever is typed behind it, and uses up exactly its characters |
| CapTries.PartOfKey | libtermbox2/termbox2.h:2830-2851 | a part of a sequence that is no key itself asks for more |
| CapTries.NoKey | libtermbox2/termbox2.h:2830-2851 | input whose first character begins no sequence is no key |
| Utf8.SixBits | libtermbox2/termbox2.h:2027-2030 | the shifts and masks by six bits are quotient, remainder, product and sum |
| Utf8.FirstByteMasks | libtermbox2/termbox2.h:1515-1515 | the masks of the table are remainders |
| Utf8.FirstByteJoins | libtermbox2/termbox2.h:2031-2031 | joining length bits and value is adding them |
| Utf8.OneByte | libtermbox2/termbox2.h:2002-2035 | the encoding of code points of one byte is that of the table in RFC 2279 |
| Utf8.TwoBytes | libtermbox2/termbox2.h:2002-2035 | the encoding of code points of two bytes is that of the table in RFC 2279 |
| Utf8.ThreeBytes | libtermbox2/termbox2.h:2002-2035 | the encoding of code points of three bytes is that of the table in RFC 2279 |
| Utf8.FourBytes | libtermbox2/termbox2.h:2002-2035 | the encoding of code points of four bytes is that of the table in RFC 2279 |
| Utf8.FiveBytes | libtermbox2/termbox2.h:2002-2035 | the encoding of code points of five bytes is that of the table in RFC 2279 |
| Utf8.SixBytes | libtermbox2/termbox2.h:2002-2035 | the encoding of code points of six bytes is that of the table in RFC 2279 |
| Utf8.UnicodeToChar | libtermbox2/termbox2.h:2002-2035 | the loop writes the encoding and a zero byte |
| Utf8.CharToUnicode | libtermbox2/termbox2.h:1984-2000 | the loop decodes as specified, including the empty and the truncated string |
| Utf8.RoundTripIff | libtermbox2/termbox2.h:1984-2035 | decoding the encoding returns the code point and the same length if and only if the code point is 1 to 0x7FFFFFFF |
| Locks.SectionIsOrdered | server/server.c:250-290 | every critical section takes its locks in increasing order (render queue, map, changelog, slots 0 to 63, ticker) and gives them all back |
| Locks.RunStaysSafe | libsnake/player/player_manager.c:97-113 | in every interleaving all threads keep the order and no lock is held twice |
| Locks.NoDeadlock | client/renderer/renderer.c:84-117 | in every reachable state with work left some thread can go on |
| Locks.TickHoldsAllSlots | libsnake/player/player_manager.c:97-100 | the tick starts processing players only with the locks of map, changelog and all slots held |
| Locks.SlotIsExclusive | server/server.c:224-233 | while one thread holds the lock of a slot no other thread holds or obtains it, so a player looked ahead at does not change |
| Locks.SectionsStart | server/client_connection.c:83-132 | any sequence of sections may be run by a thread of such a run |
| Locks.SectionHolds | server/server.c:250-290 | every section can be split into a part after which it holds the locks of everything it works on, and the rest |

## Left out

- Runs.RunIsGood: assumes `NoHazards`, that no snake eats a fruit after its tail was taken; `Ticks.PlayersKeepSnakes` shows that exactly this is needed, `HazardExample.HazardBreaksSnakes` that a run without it loses the invariant, and `HazardExample.ExitIsReachable` that the server can then exit.
- Runs.RegisterTakesFreeSlot: is about body tiles; `SlotWindow.RegisterBetweenTicksFindsNothing` and `SlotWindow.RegisterBeforeSweepFindsDead` say exactly when dead tiles of the slot are left, and `SinglePlayer.SlotHandedOutBeforeSweep` gives a run in which they are.
- Mirrors.MirrorStaysInStep: assumes that no version is skipped when a log is copied; `Mirrors.LogFitsExactlyNextVersion` shows that exactly this is needed, and `LateLog.LateLogDiverges` gives a run in which a later copy leaves the mirror wrong.
- Runs.SmallFieldNeverOverflows: on the largest fields, after a hazard, the modelled log may outgrow the array of the source; what the source does then is left out. `ServerClass.Server.Tick` requires `Budget.Ample` for the same reason.
- EndToEnd.QuietScreenShowsRun: assumes that the published orders are below 2^64 and the player numbers below 2^16, as the wire format needs, and the same about copied logs; the game-full, game-end and connected messages around the fields are left out.
- Mirrors.TickerObserver.WaitForNextTick: starts when the awaited tick has come; the blocking loop around the condition variable is not modelled.
- ServerClass.PlayerManager.Register: the loop over the slots is one step, while the source locks one slot at a time.
- GameMapClass.GameMap.FromTemplate: starts from any set of walls within the size limits; reading map files is not part of this model.
- WireIO.DeserializeToMap: requires dimensions for which the array has room, which the source does not check; the tiles map_init empties first are all overwritten and that pass is not repeated. The client's field of 5 by 5 tiles before the first message is any field in `EndToEnd` and `RenderProtocol`.
- Presenting.Screen.Present: cells of single width, 16-bit attributes and the normal output mode; wide and zero-width characters, clusters and the other modes are left out. The bytes of a token are not spelled out.
- Presenting.Screen.SendAttr: attributes whose low four bits are none of the eight colours are sent as in the source, but what a terminal makes of the codes (38, 48 and others) is left out; `IsStandard` marks the others.
- Presenting.Screen.Invalidate: the window keeps its size; resizing the buffers is left out. A terminal is taken to fill its cells with the attributes sent last when it is cleared.
- CapTries.CapTrie.Add: nodes are numbered instead of being pointers into reallocated child arrays.
- Utf8.UnicodeToChar: masks and shifts are written as arithmetic, which `Utf8.SixBits`, `Utf8.FirstByteMasks` and `Utf8.FirstByteJoins` justify on bit vectors.
- HashMaps.HashMap.Grow: capacities do not overflow an int.
- ArgParsing.ArgParser.ParseStream: string and integer options only; flags, floating-point and greedy options, commands, version text and the options that end option parsing are not used by the server and left out.
- Launcher.MenuRoundTrip: the strings and numbers typed in are arguments; the menus, key handling and terminal input around them are left out.
- Rendering.Renderer.RedrawScreen: the tiles only; the frame around the field and the list of controls are constant text.
- LinkedQueue.Queue.Clear: nodes are dropped; freeing memory is left out, here and everywhere.
- Locks.NoDeadlock: condition variables release and retake one lock that is held alone, and waiting for them is left out.
- Wrap-around of the order of a tile (size_t) and of tick numbers.
- Sockets, shared memory, threads, signals, processes, clocks and tick delays: foreign calls; streams are reliable sequences of bytes and ticks are steps.
- The shared-memory client: it draws the server's log on its screen, while its redraws read the server's own, possibly newer field; it keeps no field of its own.
- Allocation failures, terminfo loading, mouse parsing, capability tables and the probability distribution of random draws.
