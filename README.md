# Minesweeper multiplayer — a Dafny model of its core

The system is a multiplayer Minesweeper. Players share a board in a room
and play it over a websocket. The server is written in Go and the browser
client in TypeScript. Every player sees every click, flag, chord and hint.
Three modes exist:

- **classic**: the mines are placed when the game is created, and a first
  click can be made safe ("quick start");
- **training**: the mines are placed on the first click, and closed cells
  on the boundary are coloured SAFE, UNKNOWN or MINE by a SAT solver;
- **fair**: the mines are placed on every click, from a layout the solver
  finds consistent with what is on screen.

This project models the core of that system and proves properties of it.
The files follow the program's own structure:

| file | module | models |
|---|---|---|
| common.dfy | Common | bytes, `Option`/`Result`, the 5-character player-id truncation |
| wire.dfy | Wire | little-endian reads and writes as the browser (`DataView`, throwing) and Go (`bytes.Reader`, short reads) do them |
| binary_messages.dfy | BinaryMessages | the binary chat, cursor, players, pong, error and cell-update frames: the browser decoders and the Go cell-update encoder |
| gamestate_binary.dfy | GameStateBinary | the binary game-state frame and the browser's decoder |
| gamestate_binary_go.dfy | GoGameStateBinary | the Go decoder of the same frame, with its trailing cell-hint section |
| cell_types.dfy | CellTypes | the cell-type byte, the enum and the name map of the schema-driven format |
| cell_updates.dfy | CellUpdates | `getCellType` and `CollectCellUpdates` |
| protobuf_messages.dfy | ProtobufMessages | the field mapping around the schema-driven messages (sentinels, renaming, dispatch) on both sides |
| websocket_client.dfy | WebSocketClientModel | the browser `WebSocketClient`: connect, reconnect back-off, ping/pong, the cursor throttle, `send` |
| player.dfy | Players | the server-side player and its cursor rate limiter |
| cursor_animation.dfy | CursorAnimation | the remote-cursor interpolator |
| cache.dfy | TtlCache | the server's TTL cache |
| validation.dfy | Validation | the room, login and registration validators and the hex-colour check |
| grid.dfy | Grids | boards, positions and the eight-cell neighbourhood |
| game_state.dfy | GameStates | `GameState`: creation, neighbour counts, the quick-start relocation, flood fill, the win check |
| room.dfy | Rooms | `Room`: default mode, password, the player map, reset |
| sat.dfy | SatSolving | the `Sat` clause store, `combinations`, the cardinality constraints and the DPLL search |
| label_map.dfy | LabelMaps | `LabelMap`: labels, the boundary and the cache of decided cells |
| solver.dfy | Solvers | `Solver`: labels and cache to clauses, probing each boundary cell, the queries |
| safe_cells.dfy | SafeCells | `MakeSolver` and `CalculateSafeCells` |
| hints.dfy | GameHints | `CalculateCellHints` and `DetermineMinePlacement` |
| service.dfy | GameService | `HandleCellClick`, flag toggling, reveal, chording, dynamic mine placement, explosion, `HandleHint` |

Pure code (decoders, mappings, validators, `combinations`) is written as
functions with lemmas. Code that changes state in place is written as
classes and methods whose `ensures` state the new state:

- the client, the player, the animator, the cache, the room and the game
  state;
- `Sat`, `LabelMap` and `Solver`.

The game service keeps a soundness invariant (`GameService.Sound`) through
every move. It holds when:

- every number shown is the count of mines around its cell;
- the revealed counter equals the number of opened cells;
- no mine is open unless the game is over;
- at most three hints are used.

Inputs that are random, timed or computed by code outside this model come
in as parameters:

- the random generator is a sequence or function of draws;
- clocks are an instant argument;
- the solver's choice of mine layout is an optional grid.

## Model

| member | source | states |
|---|---|---|
| Common.TruncatePlayerId | backend/internal/game/protobuf.go:10-15 | the result is a prefix of the id whose length is min(length, 5) |
| Common.TruncatePlayerIdFacts | backend/internal/websocket/protobuf.go:13-18 | ids of at most 5 characters are unchanged, longer ones become their first 5, and truncating twice equals truncating once |
| Grids.NbIsAdjacent | backend/internal/game/gamestate.go:136-150 | the k-th step of the neighbour loops lands on an adjacent cell, and the 8 steps reach 8 different cells |
| Grids.AdjacentIsNb | backend/internal/game/gamestate.go:136-150 | every adjacent cell is reached by one of the 8 steps of the neighbour loops |
| Grids.NbSymmetric | backend/internal/game/gamestate.go:136-150 | stepping back by the opposite offset returns to the starting cell, so adjacency is symmetric |
| CellTypes.ByteToCellType | backend/internal/game/protobuf.go:27-47 | bytes 0..8 give the neighbour members, 9..12 and 255 give the member with that number, and any other byte gives CLOSED |
| CellTypes.ByteToCellTypeInverts | backend/internal/websocket/protobuf.go:30-50 | every enum member comes back from its own number |
| CellTypes.NameMapsToNumber | frontend/src/utils/protobufMessages.ts:318-336 | the client's name table sends each enum member's name to that member's number |
| CellTypes.NumberComesFromName | frontend/src/utils/protobufMessages.ts:318-336 | every number the table yields is a cell-type byte, every number other than 255 comes from the name of its member, and an unknown name gives 255 |
| Validation.ValidateRoomParams | backend/internal/utils/validation.go:4-16 | a missing name is reported first, then sides outside 5..50, then a mine count outside 1..rows*cols-15, and the parameters pass exactly when none applies |
| Validation.AcceptedRoomFitsWireFormat | backend/internal/utils/validation.go:4-16 | an accepted room leaves at least 15 cells without mines, and its rows, cols, mines and cell count fit the 16-bit header fields |
| Validation.ValidateAuthParams | backend/internal/utils/validation.go:19-24 | login parameters pass exactly when username and password are both non-empty |
| Validation.ValidateRegisterParams | backend/internal/utils/validation.go:27-35 | a missing field is reported before a password shorter than 6, and registration passes exactly when all fields are present and the password has at least 6 characters |
| Validation.RegisteredCredentialsPassAuth | backend/internal/utils/validation.go:19-35 | credentials that pass registration also pass the login check |
| Validation.HexColorShape | backend/internal/handlers/profile.go:163-173 | the colour validator accepts exactly '#' followed by six hex digits, in either case |
| Validation.ColorUpdateAcceptedFacts | backend/internal/handlers/profile.go:129 | an empty colour skips validation, and a non-empty accepted colour has 7 characters and starts with '#' |
| TtlCache.Lookup | backend/internal/cache/cache.go:33-48 | a key gives a hit exactly when it is present and `now` is not after its expiry, and the hit carries the stored value |
| TtlCache.Cache.constructor | backend/internal/cache/cache.go:21-29 | a new cache is empty and keeps the given time-to-live |
| TtlCache.Cache.Get | backend/internal/cache/cache.go:33-48 | Get answers the lookup rule on the cache's current entries |
| TtlCache.Cache.Set | backend/internal/cache/cache.go:51-59 | the key now maps to the value with expiry now+ttl, and every other entry stays as it was |
| TtlCache.Cache.Delete | backend/internal/cache/cache.go:62-66 | that key is removed and nothing else |
| TtlCache.Cache.Invalidate | backend/internal/cache/cache.go:69-78 | whatever the visiting order, exactly the keys with the prefix are removed and the remaining entries keep their values |
| TtlCache.Cache.Clear | backend/internal/cache/cache.go:81-85 | the cache is empty |
| TtlCache.Cache.Sweep | backend/internal/cache/cache.go:88-101 | one cleanup pass keeps exactly the entries that have not expired at `now`, with unchanged values |
| TtlCache.SetThenGet | backend/internal/cache/cache.go:33-59 | after Set at time t, a Get at any time up to t+ttl returns the stored value |
| TtlCache.DeleteOnlyThatKey | backend/internal/cache/cache.go:62-66 | after Delete that key misses and every other key answers as before |
| TtlCache.SweepIsUnobservable | backend/internal/cache/cache.go:88-101 | the cleanup pass never changes what Get answers at the same instant |
| Players.Player.constructor | backend/internal/websocket/player.go:11-21 | a new player has the given id, user id, nickname and colour, its last cursor at (0, 0), and its last send at the given instant, which stands for the zero time |
| Players.SquaredDistance | backend/internal/websocket/player.go:56-59 | the squared distance is non-negative and zero for the same point |
| Players.Player.SetNickname | backend/internal/websocket/player.go:45-49 | only the nickname changes |
| Players.Player.UpdateCursor | backend/internal/websocket/player.go:52-71 | the update is accepted unless it comes less than 100 ms after the last one and moves a squared distance under 25; a rejected update leaves the player unchanged, and an accepted one records x, y and the time |
| Players.RepeatWithinIntervalRejected | backend/internal/websocket/player.go:52-71 | after an accepted update, the same position within 100 ms is rejected, and any position 100 ms or more later is accepted |
| Players.LargeMoveAlwaysAllowed | backend/internal/websocket/player.go:56-65 | a move of at least 5 units along one axis is never throttled |
| Rooms.Room.constructor | backend/internal/game/room.go:16-36 | an empty mode becomes classic, the room has no players and no start time, and its game has the room's size and nothing opened |
| Rooms.Room.ValidatePassword | backend/internal/game/room.go:104-106 | a room without a password accepts any password, and one with a password accepts only that exact text |
| Rooms.Room.GetPlayer | backend/internal/game/room.go:137-141 | a player comes back exactly when the id is in the room, and it is the stored player |
| Rooms.Room.GetPlayerCount | backend/internal/game/room.go:130-134 | the count is the number of distinct player ids |
| Rooms.Room.AddPlayer | backend/internal/game/room.go:116-120 | GetPlayer of that id returns the new player, every other id answers as before, and the count grows by one unless the id was already there |
| Rooms.Room.RemovePlayer | backend/internal/game/room.go:123-127 | GetPlayer of that id returns none, every other id answers as before, and the count drops by one if the id was there |
| Rooms.Room.ResetGame | backend/internal/game/room.go:144-150 | the room gets a fresh game of its size with nothing opened, and the start time is cleared |
| CursorAnimation.Step | frontend/src/composables/useCursorAnimation.ts:54-68 | one frame keeps the target, snaps onto it when both axis gaps are under 0.05, and otherwise leaves 0.8 of each gap |
| CursorAnimation.StepAll | frontend/src/composables/useCursorAnimation.ts:54-68 | a frame advances every cursor of the map by one step and keeps the same ids |
| CursorAnimation.Retarget | frontend/src/composables/useCursorAnimation.ts:18-33 | an unseen id starts with position = target = the point, a known id changes only its target, and other ids are untouched |
| CursorAnimation.CursorAnimator.constructor | frontend/src/composables/useCursorAnimation.ts:13-16 | no cursors, no animation running and no frame scheduled |
| CursorAnimation.CursorAnimator.Animate | frontend/src/composables/useCursorAnimation.ts:51-76 | every cursor advances one step; a frame is scheduled while the map is non-empty, and an empty map stops the loop |
| CursorAnimation.CursorAnimator.StartAnimation | frontend/src/composables/useCursorAnimation.ts:78-83 | a running loop is left alone; otherwise one frame runs at once and the loop is marked running while cursors remain |
| CursorAnimation.CursorAnimator.UpdateCursor | frontend/src/composables/useCursorAnimation.ts:18-39 | the target is recorded (a fresh id starts on its target), the loop runs afterwards, and a frame runs at once only if the loop was stopped |
| CursorAnimation.CursorAnimator.RemoveCursor | frontend/src/composables/useCursorAnimation.ts:41-49 | the id is deleted, and removing the last cursor cancels the frame and stops the loop |
| CursorAnimation.CursorAnimator.FrameFired | frontend/src/composables/useCursorAnimation.ts:51-76 | a scheduled frame advances every cursor and schedules the next frame |
| CursorAnimation.CursorAnimator.Mounted | frontend/src/composables/useCursorAnimation.ts:85-90 | mounting starts the loop exactly when cursors exist and it is not already running |
| CursorAnimation.CursorAnimator.Unmounted | frontend/src/composables/useCursorAnimation.ts:92-98 | unmounting cancels the frame and stops the loop, and keeps the cursors |
| CursorAnimation.Gap | frontend/src/composables/useCursorAnimation.ts:56-60 | the larger axis gap is non-negative and zero exactly when the cursor is on its target |
| CursorAnimation.NonSnapStepShrinks | frontend/src/composables/useCursorAnimation.ts:63-66 | a step that does not snap shrinks the gap to exactly 0.8 of what it was |
| CursorAnimation.RestIsStable | frontend/src/composables/useCursorAnimation.ts:59-62 | a cursor on its target stays there for any number of frames |
| CursorAnimation.SettlesWithin | frontend/src/composables/useCursorAnimation.ts:54-68 | a gap below 0.05 * 1.25^k is closed after k+1 frames |
| CursorAnimation.EventuallyAtTarget | frontend/src/composables/useCursorAnimation.ts:54-68 | with a fixed target, every cursor reaches it after finitely many frames |
| WebSocketClientModel.TruncateOptionalId | frontend/src/api/websocket.ts:206-209 | an absent id stays absent, and a present id becomes its prefix of length min(length, 5) |
| WebSocketClientModel.Optimize | frontend/src/api/websocket.ts:214-225 | the sent message keeps every field, and only playerId, cursor.pid and gameState.lpid are truncated |
| WebSocketClientModel.OptimizeFacts | frontend/src/api/websocket.ts:206-225 | outgoing ids always fit 5 characters, a message whose ids already fit goes out unchanged, and optimising twice equals optimising once |
| WebSocketClientModel.RoundToHundredths | frontend/src/api/websocket.ts:238-239 | the rounded coordinate lies within half a hundredth of the input |
| WebSocketClientModel.CursorMessage | frontend/src/api/websocket.ts:257 | the throttled cursor message has kind cursor, an empty pid and the rounded position, so its ids fit the budget |
| WebSocketClientModel.WebSocketClient.constructor | frontend/src/api/websocket.ts:70-92 | a new client has no socket, no timers, no cursor state, 0 attempts and nothing sent |
| WebSocketClientModel.WebSocketClient.IsConnected | frontend/src/api/websocket.ts:364-366 | the client is connected exactly when a socket exists and is OPEN |
| WebSocketClientModel.WebSocketClient.Send | frontend/src/api/websocket.ts:211-228 | while OPEN the optimised message is appended to what was sent; otherwise nothing is sent; no other state changes |
| WebSocketClientModel.WebSocketClient.SendNickname | frontend/src/api/websocket.ts:230-232 | while OPEN exactly one nickname message carrying the nickname is sent; no other state changes |
| WebSocketClientModel.WebSocketClient.SendCellClick | frontend/src/api/websocket.ts:284-286 | while OPEN exactly one cellClick message with row, col and flag is sent; no other state changes |
| WebSocketClientModel.WebSocketClient.SendHint | frontend/src/api/websocket.ts:288-290 | while OPEN exactly one hint message with row and col is sent; no other state changes |
| WebSocketClientModel.WebSocketClient.SendNewGame | frontend/src/api/websocket.ts:292-294 | while OPEN exactly one newGame message is sent; no other state changes |
| WebSocketClientModel.WebSocketClient.SendChatMessage | frontend/src/api/websocket.ts:296-304 | while OPEN exactly one chat message is sent, with the text and isSystem false; no other state changes |
| WebSocketClientModel.WebSocketClient.Connect | frontend/src/api/websocket.ts:94-186 | the intentional flag is cleared; a valid URL opens a connecting socket, and a rejected URL schedules a retry while fewer than 5 attempts were made; the cursor-throttle state, the pong time, pinging and the watchdog are unchanged |
| WebSocketClientModel.WebSocketClient.AttemptReconnect | frontend/src/api/websocket.ts:188-204 | nothing happens after an intentional disconnect or after 5 attempts; otherwise the attempt count grows by one and a retry is scheduled 1000*attempts ms later; the socket, the flag, the cursor-throttle state, the pong time, pinging and the watchdog are unchanged |
| WebSocketClientModel.WebSocketClient.ReconnectTimerFired | frontend/src/api/websocket.ts:196-202 | the due retry leaves the pending list; unless the user disconnected meanwhile (then the socket is untouched) it clears the flag and opens a new socket, or, when the URL is rejected, schedules the next retry if fewer than 5 were made; nothing is sent, and the cursor-throttle state, the pong time, pinging and the watchdog are unchanged |
| WebSocketClientModel.WebSocketClient.SocketOpened | frontend/src/api/websocket.ts:101-107 | on open the socket is OPEN, the attempt count is 0, the pong time is now and pinging runs without a watchdog; pending retries and the cursor-throttle state are unchanged |
| WebSocketClientModel.ReplacedSocketCloses | frontend/src/api/websocket.ts:94-174 | after an open socket is dropped by disconnect and a new one created by connect, the old socket's late close stops pinging and schedules a retry while the new socket is still connecting |
| WebSocketClientModel.WebSocketClient.SocketClosed | frontend/src/api/websocket.ts:167-174 | on close pinging stops and the intentional flag is kept; a retry is scheduled unless the close was intentional or 5 attempts were made, in which case attempts and pending retries are unchanged; only a close of the socket the client holds changes its ready state; the cursor-throttle state and the pong time are unchanged |
| WebSocketClientModel.WebSocketClient.StartPingInterval | frontend/src/api/websocket.ts:306-331 | pinging is active with no watchdog armed; the socket, the attempts, the pending retries, the flag, the pong time and the cursor-throttle state are unchanged |
| WebSocketClientModel.WebSocketClient.StopPingInterval | frontend/src/api/websocket.ts:333-342 | pinging is off with no watchdog armed; the socket, the attempts, the pending retries, the flag, the pong time and the cursor-throttle state are unchanged |
| WebSocketClientModel.WebSocketClient.PingTick | frontend/src/api/websocket.ts:309-330 | while OPEN a ping is sent and the watchdog is re-armed 10 s ahead; otherwise nothing is sent and the watchdog is kept; every other field keeps its value |
| WebSocketClientModel.WebSocketClient.PongTimeoutFired | frontend/src/api/websocket.ts:319-328 | the socket starts closing exactly when more than 10 s have passed since the last pong and it is connecting or open; the attempts, the pending retries, the flag, the cursor-throttle state, the pong time, pinging and the watchdog are unchanged |
| WebSocketClientModel.WebSocketClient.PongReceived | frontend/src/api/websocket.ts:150-157 | the pong time becomes now and the watchdog is disarmed; the socket, pinging, the attempts, the pending retries, the flag and the cursor-throttle state are unchanged |
| WebSocketClientModel.WebSocketClient.SendCursor | frontend/src/api/websocket.ts:234-282 | the rounded position is dropped when it moved under 5 in both axes within 100 ms; it is sent at once, becoming the last position with pending cleared, once 100 ms have passed; otherwise it stays pending and at most one deferred send is scheduled, 100 ms after the last send; the socket, pinging, the watchdog, the pong time, the attempts, the pending retries and the flag are unchanged |
| WebSocketClientModel.WebSocketClient.CursorTimerFired | frontend/src/api/websocket.ts:265-280 | the deferred send transmits the latest pending position, if any, makes it the last position, and frees the timer slot; the socket, pinging, the watchdog, the pong time, the attempts, the pending retries and the flag are unchanged |
| WebSocketClientModel.WebSocketClient.Disconnect | frontend/src/api/websocket.ts:344-362 | the close is marked intentional, the socket is dropped, the ping interval, pong timeout and cursor throttle timer are cleared while pending reconnect timers are kept, cursor, pong and attempt state are reset, and nothing is sent |
| WebSocketClientModel.ReconnectDelays | frontend/src/api/websocket.ts:194-203 | at most 5 retries are scheduled, and the k-th waits k seconds |
| WebSocketClientModel.ReconnectBackoffTotal | frontend/src/api/websocket.ts:194-203 | the waits of n retries sum to 1000*m*(m+1)/2 with m = min(n, 5), so never more than 15 s |
| WebSocketClientModel.EarlyPositionPassesOnlyIfFar | frontend/src/api/websocket.ts:245-251 | within 100 ms of the last send, only a first position or a move of at least 5 in some axis passes the throttle |
| Wire.U16Bytes | backend/cmd/main/cell_update_binary.go:73 | a uint16 becomes two bytes that read back as the same value in little-endian order |
| Wire.WrapU16 | backend/cmd/main/cell_update_binary.go:73 | Go's uint16 conversion lands in 0..65535 and keeps every value already in range |
| Wire.WrapU8 | backend/cmd/main/cell_update_binary.go:78 | Go's byte conversion keeps every value already in 0..255 |
| Wire.FlagByte | backend/cmd/main/cell_update_binary.go:30-43 | each of the four flag bits is set exactly when its condition holds, and no higher bit is set |
| Wire.ReadU8 | frontend/src/utils/messagesBinary.ts:202-203 | a byte read succeeds exactly when a byte is left, and consumes that one byte |
| Wire.ReadU16 | frontend/src/utils/messagesBinary.ts:315-316 | a uint16 read succeeds exactly when two bytes are left, and gives their little-endian value |
| Wire.ReadBytes | frontend/src/utils/messagesBinary.ts:76-77 | a view of n bytes succeeds exactly when n bytes are left, and consumes exactly those |
| Wire.ReadIdSlot | frontend/src/utils/messagesBinary.ts:64-69 | an id slot needs 6 bytes, always consumes the five-byte slot, and yields its first min(length byte, 5) bytes |
| Wire.ReadShortString | frontend/src/utils/messagesBinary.ts:71-79 | a length byte followed by that many bytes, which must all be present |
| Wire.GetIdSlot | frontend/src/utils/messagesBinary.ts:64-69 | the offset-advancing reader agrees with the id-slot rule, including the failure case |
| Wire.GetShortString | frontend/src/utils/messagesBinary.ts:71-79 | the offset-advancing reader agrees with the short-string rule, including the failure case |
| Wire.ReadU16Encoded | backend/cmd/main/cell_update_binary.go:73 | a uint16 written little-endian reads back as itself, leaving what follows |
| Wire.ReadIdSlotEncoded | backend/cmd/main/cell_update_binary.go:46-57 | an id of at most 5 bytes written in its zero-padded slot reads back as itself |
| Wire.ReadShortStringEncoded | backend/cmd/main/cell_update_binary.go:59-68 | a string under 256 bytes written after its length reads back as itself |
| Wire.GoReadByte | backend/cmd/main/gamestate_binary.go:29 | ReadByte yields the next byte, or 0 with an error and nothing consumed at the end |
| Wire.GoReadU16 | backend/cmd/main/gamestate_binary.go:18-21 | binary.Read of a uint16 succeeds exactly when 2 bytes are left; a short read leaves 0 and consumes the rest |
| Wire.GoReadFill | backend/cmd/main/gamestate_binary.go:39-40 | Read into a fresh n-byte slice copies what is there and zero-fills the rest, and is complete exactly when n bytes were left |
| Wire.ReaderReadByte | backend/cmd/main/gamestate_binary.go:29 | the reader cursor follows the ReadByte rule |
| Wire.ReaderReadU16 | backend/cmd/main/gamestate_binary.go:18-21 | the reader cursor follows the uint16 rule |
| Wire.ReaderRead | backend/cmd/main/gamestate_binary.go:39-40 | the reader cursor follows the slice-fill rule |
| Wire.GoReadU16AgreesWithDataView | backend/cmd/main/gamestate_binary.go:18-21 | the Go uint16 read and the browser's getUint16 succeed on the same inputs and give the same value |
| BinaryMessages.NonEmpty | frontend/src/utils/messagesBinary.ts:336-339 | an optional field is present exactly when the string is non-empty, and then holds it |
| BinaryMessages.ReadRowCol | frontend/src/utils/messagesBinary.ts:121-126 | a chat position reads two uint16 values and needs 4 bytes |
| BinaryMessages.ReadOptionalU16 | frontend/src/utils/messagesBinary.ts:300-305 | an unannounced revealed count reads nothing |
| BinaryMessages.ReadOptionalU8 | frontend/src/utils/messagesBinary.ts:307-312 | an unannounced hints count reads nothing |
| BinaryMessages.ReadPlayers | frontend/src/utils/messagesBinary.ts:207-236 | a successful read of n player records yields exactly n records |
| BinaryMessages.ReadPlayersFailureSticks | frontend/src/utils/messagesBinary.ts:207-236 | once a record fails to read, every longer run fails with the same error |
| BinaryMessages.ReadCellUpdates | frontend/src/utils/messagesBinary.ts:320-329 | a successful read of n entries yields exactly n entries |
| BinaryMessages.ReadCellUpdatesFailureSticks | frontend/src/utils/messagesBinary.ts:320-329 | once an entry fails to read, every longer run fails with the same error |
| BinaryMessages.DecodeSpec | frontend/src/utils/messagesBinary.ts:346-372 | an empty buffer, type 0 and any type above 6 give null, type 4 gives pong, and only types 1..6 give a message |
| BinaryMessages.DispatchesOnType | frontend/src/utils/messagesBinary.ts:353-368 | each of types 1, 2, 3, 5 and 6 gives exactly its body decoder's result or error |
| BinaryMessages.GetChatOptions | frontend/src/utils/messagesBinary.ts:101-126 | the offset-advancing reader agrees with the chat options rule: the action only with bit 1, the position only with bit 2 |
| BinaryMessages.DecodeChatBinary | frontend/src/utils/messagesBinary.ts:60-140 | the step-by-step chat decoder equals the chat specification: id slot, nickname, colour, text, options |
| BinaryMessages.DecodeCursorBinary | frontend/src/utils/messagesBinary.ts:145-193 | the step-by-step cursor decoder equals the cursor specification: id slot, nickname, colour, two 8-byte coordinates |
| BinaryMessages.GetPlayer | frontend/src/utils/messagesBinary.ts:208-235 | the offset-advancing reader of one player record agrees with the record rule |
| BinaryMessages.GetPlayers | frontend/src/utils/messagesBinary.ts:207-236 | the record loop agrees with reading count records one after another |
| BinaryMessages.DecodePlayersBinary | frontend/src/utils/messagesBinary.ts:198-242 | the players decoder equals its specification, and a decoded list has as many players as the count byte says |
| BinaryMessages.DecodeErrorBinary | frontend/src/utils/messagesBinary.ts:247-263 | the error decoder equals its specification: one short string |
| BinaryMessages.GetCellUpdate | frontend/src/utils/messagesBinary.ts:321-328 | one entry reads a uint16 row, a uint16 col and a type byte: 5 bytes |
| BinaryMessages.GetCellUpdates | frontend/src/utils/messagesBinary.ts:320-329 | the entry loop agrees with reading count entries one after another |
| BinaryMessages.GetCellUpdateHeader | frontend/src/utils/messagesBinary.ts:273-316 | the header reader agrees with its rule: loser fields only with the game-over bit, revealed and hintsUsed only with their bits |
| BinaryMessages.DecodeCellUpdateBinary | frontend/src/utils/messagesBinary.ts:268-341 | the cell-update decoder equals its specification: header sections, count, then count 5-byte entries |
| BinaryMessages.DecodeBinaryMessage | frontend/src/utils/messagesBinary.ts:346-372 | the decoder equals the dispatch specification on every buffer |
| BinaryMessages.CellUpdateFlags | backend/cmd/main/cell_update_binary.go:29-43 | bit 0 is gameOver, bit 1 gameWon, bit 2 revealed >= 0 and bit 3 hintsUsed >= 0, and nothing else is set |
| BinaryMessages.UpdateBytes | backend/cmd/main/cell_update_binary.go:90-92 | each entry takes exactly 5 bytes |
| BinaryMessages.UpdatesBytes | backend/cmd/main/cell_update_binary.go:89-93 | n entries take exactly 5n bytes |
| BinaryMessages.EncodeCellUpdateBinary | backend/cmd/main/cell_update_binary.go:25-96 | the buffer the encoder builds step by step is the frame: type, flags, optional loser, revealed and hints sections, count capped at 65535, then that many entries |
| BinaryMessages.AppendUpdates | backend/cmd/main/cell_update_binary.go:89-93 | the loop appends exactly the first count entries, 5 bytes each |
| BinaryMessages.EncodeLoser | backend/cmd/main/cell_update_binary.go:46-68 | the loser section is the id truncated to 5 in its zero-padded slot, then the nickname capped at 255 bytes after its length |
| BinaryMessages.DecodesBody | frontend/src/utils/messagesBinary.ts:353-368 | a frame of a body type decodes to its body's decoding, wrapped as present |
| BinaryMessages.ReceivedAllAt | frontend/src/utils/messagesBinary.ts:320-329 | the i-th update the browser sees is the i-th update sent, as wire values |
| BinaryMessages.ReadUpdateEncoded | backend/cmd/main/cell_update_binary.go:90-92 | one encoded entry reads back as the update the browser sees |
| BinaryMessages.ReadCellUpdatesStep | frontend/src/utils/messagesBinary.ts:320-329 | reading one more entry consumes exactly that entry's 5 bytes |
| BinaryMessages.ReadUpdatesBytes | backend/cmd/main/cell_update_binary.go:89-93 | encoded entries in front of any suffix read back in order, leaving the suffix |
| BinaryMessages.ReadLoserEncoded | backend/cmd/main/cell_update_binary.go:46-68 | the loser section reads back as the truncated id and the capped nickname |
| BinaryMessages.CellUpdateFrameShape | backend/cmd/main/cell_update_binary.go:25-96 | the frame is the type byte, flags, loser, revealed and hints sections, count and entries, in that order |
| BinaryMessages.CellUpdateRoundTrip | backend/cmd/main/cell_update_binary.go:25-96 | decoding the Go frame in the browser recovers the flags, the loser (id cut to 5, nickname to 255), revealed and hintsUsed at wire width, and the first min(n, 65535) updates |
| BinaryMessages.ChatOptionsRoundTrip | frontend/src/utils/messagesBinary.ts:101-126 | an options block decodes to the system flag, the action and the position that were written |
| BinaryMessages.ChatRoundTrip | frontend/src/utils/messagesBinary.ts:60-140 | a chat frame decodes to its fields, and the action and position appear exactly when they were sent |
| BinaryMessages.ReadPlayerEncoded | frontend/src/utils/messagesBinary.ts:208-235 | an encoded player record reads back as itself |
| BinaryMessages.ReadPlayersBytes | frontend/src/utils/messagesBinary.ts:207-236 | encoded records in front of any suffix read back one by one, leaving the suffix |
| BinaryMessages.PlayersRoundTrip | frontend/src/utils/messagesBinary.ts:198-242 | a players frame with up to 255 records decodes to exactly those records |
| BinaryMessages.CursorRoundTrip | frontend/src/utils/messagesBinary.ts:145-193 | a cursor frame decodes to its id, nickname, colour and the two raw coordinates |
| BinaryMessages.ErrorRoundTrip | frontend/src/utils/messagesBinary.ts:247-263 | an error frame decodes to its text |
| BinaryMessages.ShortChatFrameThrows | frontend/src/utils/messagesBinary.ts:64-68 | a chat frame cut inside its id slot fails to decode |
| CellUpdates.FirstHintAt | backend/internal/game/protobuf.go:132-143 | a hint type is found exactly when some hint names the cell |
| CellUpdates.GetCellType | backend/internal/game/protobuf.go:120-151 | the scan over the hints gives the cell-type rule: a revealed mine is 9, a revealed number is min(count, 8), and a closed unflagged cell in training or fair mode takes its first hint (SAFE 10, UNKNOWN 11, MINE 12), else 255 |
| CellUpdates.CellTypeIsMember | backend/internal/game/protobuf.go:120-151 | for a count of at least 0 the type is a byte the enum has a member for (never 13..254), and that member carries the same number |
| CellUpdates.ClosedCellHidesContents | backend/cmd/main/cell_update_binary.go:99-135 | a closed cell shows 10, 11, 12 or 255 whatever its mine and count are; a flagged cell, or any cell outside training and fair mode, shows 255 |
| CellUpdates.OpenedCellShowsCount | backend/cmd/main/cell_update_binary.go:100-108 | on a board with correct counts, an opened cell without a mine shows the number of mines around it |
| CellUpdates.CollectCellUpdates | backend/internal/game/protobuf.go:154-183 | whatever the map order, there is one update per changed cell inside the board, carrying that cell's type, and changed cells outside the board are skipped |
| CellUpdates.SkipOutside | backend/internal/game/protobuf.go:168-170 | a changed cell outside the board adds no update |
| CellUpdates.AppendUpdate | backend/internal/game/protobuf.go:172-179 | a changed cell inside the board that was not seen yet adds its own update |
| CellUpdates.DistinctPositionsCount | backend/internal/game/protobuf.go:166-180 | updates for distinct positions are exactly as many as their positions |
| CellUpdates.BoardMessage | backend/internal/game/protobuf.go:54-68 | the message board has the game's shape, and each message cell copies its game cell |
| CellUpdates.GameStateMessage | backend/internal/game/protobuf.go:50-110 | the message copies the board cell by cell, the counters, the safe cells and the hints in order, and the loser nickname; the loser id is cut to its first 5 characters |
| GameStateBinary.DecodeCell | frontend/src/utils/gamestateBinary.ts:85-90 | bit 0 is the mine, bit 1 revealed, bit 2 flagged, and the count is (byte>>3)&15, so it lies in 0..15 |
| GameStateBinary.CellByteRoundTrip | frontend/src/utils/gamestateBinary.ts:85-90 | every cell with a count in 0..15 and no colour is packed into a byte that decodes back to it |
| GameStateBinary.RowMajor | frontend/src/utils/gamestateBinary.ts:118-121 | a key equals i*cols + j exactly when key/cols is i and key%cols is j |
| GameStateBinary.LoserId | frontend/src/utils/gamestateBinary.ts:57-65 | the loser id is set exactly when its length is 1..5, and then it is the first length bytes of the slot |
| GameStateBinary.ReadRow | frontend/src/utils/gamestateBinary.ts:81-92 | a row needs cols bytes and decodes each of them into one cell |
| GameStateBinary.ReadRows | frontend/src/utils/gamestateBinary.ts:78-93 | a decoded board has rows rows of cols cells |
| GameStateBinary.ReadRowsFailureSticks | frontend/src/utils/gamestateBinary.ts:78-93 | once a row fails to read, every larger board fails with the same error |
| GameStateBinary.ApplyFlagColor | frontend/src/utils/gamestateBinary.ts:117-122 | applying a colour keeps the board's shape |
| GameStateBinary.ReadFlagEntry | frontend/src/utils/gamestateBinary.ts:103-123 | an entry's cell key is a uint16 |
| GameStateBinary.ReadFlagColors | frontend/src/utils/gamestateBinary.ts:101-124 | the colour loop keeps the board's shape |
| GameStateBinary.ReadFlagColorsFails | frontend/src/utils/gamestateBinary.ts:101-107 | an entry that cannot be read makes the whole loop fail with its error |
| GameStateBinary.ReadFlagColorsStep | frontend/src/utils/gamestateBinary.ts:101-124 | one pass: an entry cut after its key ends the loop, a skipped colour moves on, and a good colour is applied before moving on |
| GameStateBinary.FlagSection | frontend/src/utils/gamestateBinary.ts:96-125 | the optional colour section keeps the board's shape |
| GameStateBinary.GetCounts | frontend/src/utils/gamestateBinary.ts:38-55 | the header reader agrees with its rule: four uint16 counts, hintsUsed and flags |
| GameStateBinary.GetLoserSection | frontend/src/utils/gamestateBinary.ts:57-75 | the loser reader agrees with its rule: length byte, five-byte slot, nickname |
| GameStateBinary.GetRow | frontend/src/utils/gamestateBinary.ts:81-92 | the inner board loop agrees with the row rule |
| GameStateBinary.GetBoard | frontend/src/utils/gamestateBinary.ts:78-93 | the nested board loop agrees with reading rows rows of cols bytes |
| GameStateBinary.GetFlagEntry | frontend/src/utils/gamestateBinary.ts:103-116 | one entry's reader agrees with the entry rule |
| GameStateBinary.NextFlagColor | frontend/src/utils/gamestateBinary.ts:101-124 | one pass of the colour loop makes progress and agrees with the loop rule |
| GameStateBinary.GetFlagColors | frontend/src/utils/gamestateBinary.ts:96-125 | the colour section agrees with its rule: a count byte, then entries while the count lasts and bytes remain |
| GameStateBinary.TakeSafeCellsStep | frontend/src/utils/gamestateBinary.ts:135-141 | one pass of the safe-cell loop adds the pair at the offset |
| GameStateBinary.GetSafeCells | frontend/src/utils/gamestateBinary.ts:127-143 | the safe-cell section agrees with its rule: a count, then pairs while four bytes remain |
| GameStateBinary.DecodeGameStateBinary | frontend/src/utils/gamestateBinary.ts:33-158 | the step-by-step decoder equals the decoding specification on every buffer |
| GameStateBinary.CountsByOffsets | frontend/src/utils/gamestateBinary.ts:38-55 | the counts need 10 bytes: little-endian rows, cols, mines, revealed, then hintsUsed and flags |
| GameStateBinary.LoserSectionByOffsets | frontend/src/utils/gamestateBinary.ts:57-75 | the loser section needs 7 bytes plus the nickname, and the 5-byte slot is always consumed |
| GameStateBinary.HeaderByOffsets | frontend/src/utils/gamestateBinary.ts:38-75 | the header takes 17 bytes plus the nickname, read at fixed offsets |
| GameStateBinary.ReadRowsConsumes | frontend/src/utils/gamestateBinary.ts:78-93 | the board reads exactly rows*cols bytes and fails when fewer remain |
| GameStateBinary.ReadRowsCell | frontend/src/utils/gamestateBinary.ts:81-91 | cell (i, j) is decoded from byte i*cols + j of the board part |
| GameStateBinary.ReadRowsSize | frontend/src/utils/gamestateBinary.ts:78-93 | the board fails unless rows*cols bytes remain, and then consumes exactly those |
| GameStateBinary.ReadRowsCells | frontend/src/utils/gamestateBinary.ts:78-93 | every row lies inside the buffer, and each cell is decoded from its own byte |
| GameStateBinary.ApplyFlagColorAt | frontend/src/utils/gamestateBinary.ts:117-122 | a colour lands on exactly the cell its key names in row-major order, if that cell exists |
| GameStateBinary.ReadFlagColorsOnlyColors | frontend/src/utils/gamestateBinary.ts:101-124 | the colour loop changes only colours: every other field of every cell stays |
| GameStateBinary.TakeSafeCellsLayout | frontend/src/utils/gamestateBinary.ts:133-142 | the loop reads min(count, bytes/4) pairs, the k-th from bytes 4k..4k+3, so no read passes the end |
| GameStateBinary.SafeCellSectionThrows | frontend/src/utils/gamestateBinary.ts:129-131 | the safe-cell section throws exactly when one byte is left for its count |
| GoGameStateBinary.Padded | backend/cmd/main/gamestate_binary.go:62 | n bytes taken with ReadByte are the bytes that are there, then zeros |
| GoGameStateBinary.GoReadRow | backend/cmd/main/gamestate_binary.go:61-68 | a row always has cols cells, decoded from 0 past the end of the buffer |
| GoGameStateBinary.GoReadRows | backend/cmd/main/gamestate_binary.go:53-69 | the board always has rows rows of cols cells, even on a short buffer |
| GoGameStateBinary.GoReadFlagEntry | backend/cmd/main/gamestate_binary.go:76-99 | a key is a uint16, an applied colour has 1..7 bytes, and an entry cut before its length ends the loop with nothing left |
| GoGameStateBinary.GoApplyAsWritten | backend/cmd/main/gamestate_binary.go:91-97 | the cell lookup divides by gs.Cols: it panics exactly when there are no columns, and otherwise colours the cell the key names |
| GoGameStateBinary.GoFlagColorsAsWritten | backend/cmd/main/gamestate_binary.go:72-102 | the loop as written keeps the board's shape when it does not panic |
| GoGameStateBinary.GoFlagColors | backend/cmd/main/gamestate_binary.go:72-102 | the loop with the cell lookup guarded as in the browser decoder keeps the board's shape |
| GoGameStateBinary.GoReadPair | backend/cmd/main/gamestate_binary.go:110-117 | a pair that cannot be read uses up the buffer |
| GoGameStateBinary.GoReadPairIsTwoReads | backend/cmd/main/gamestate_binary.go:110-117 | a pair is two uint16 reads, and is absent when either fails |
| GoGameStateBinary.HintOfByte | backend/cmd/main/gamestate_binary.go:139-149 | byte 0 is MINE, byte 1 is SAFE, and every other byte is UNKNOWN |
| GoGameStateBinary.GoReadHint | backend/cmd/main/gamestate_binary.go:128-150 | a hint that cannot be read uses up the buffer |
| GoGameStateBinary.GoPairs | backend/cmd/main/gamestate_binary.go:109-118 | the loop reads at most count pairs |
| GoGameStateBinary.GoHints | backend/cmd/main/gamestate_binary.go:127-151 | the loop reads at most count hints |
| GoGameStateBinary.GoSectionCount | backend/cmd/main/gamestate_binary.go:106-107 | a section count is a uint16 |
| GoGameStateBinary.GoSafeCellSection | backend/cmd/main/gamestate_binary.go:104-120 | a present safe-cell list has exactly count slots, because it is made with that length and filled by index |
| GoGameStateBinary.GoHintSection | backend/cmd/main/gamestate_binary.go:122-153 | a present hint list has exactly count slots |
| GoGameStateBinary.GoReadBoard | backend/cmd/main/gamestate_binary.go:16-69 | the decoded board has the shape the header announces |
| GoGameStateBinary.GoFlagSection | backend/cmd/main/gamestate_binary.go:71-102 | the guarded colour section keeps the board's shape |
| GoGameStateBinary.GoGetCounts | backend/cmd/main/gamestate_binary.go:16-35 | the reader cursor follows the header rule |
| GoGameStateBinary.GoGetLoserSection | backend/cmd/main/gamestate_binary.go:37-51 | the reader cursor follows the loser rule |
| GoGameStateBinary.GoGetRow | backend/cmd/main/gamestate_binary.go:61-68 | the inner board loop follows the row rule |
| GoGameStateBinary.GoGetBoard | backend/cmd/main/gamestate_binary.go:53-69 | the nested board loop follows the board rule |
| GoGameStateBinary.GoGetFlagEntry | backend/cmd/main/gamestate_binary.go:76-90 | one entry's reads follow the entry rule |
| GoGameStateBinary.GoFlagColorsStep | backend/cmd/main/gamestate_binary.go:76-100 | one pass as written: a cut entry breaks, a skipped colour moves on, a good colour panics with no columns and is otherwise applied |
| GoGameStateBinary.GoColorCell | backend/cmd/main/gamestate_binary.go:93-97 | colouring a cell follows the as-written lookup, panic included |
| GoGameStateBinary.GoNextFlagColor | backend/cmd/main/gamestate_binary.go:76-100 | one pass of the loop agrees with the as-written loop rule |
| GoGameStateBinary.GoGetFlagColors | backend/cmd/main/gamestate_binary.go:71-102 | the colour section as written: a count byte, then up to count passes unless one breaks |
| GoGameStateBinary.GoGetPair | backend/cmd/main/gamestate_binary.go:110-117 | the pair reads follow the pair rule |
| GoGameStateBinary.GoGetHint | backend/cmd/main/gamestate_binary.go:128-150 | the hint reads follow the hint rule |
| GoGameStateBinary.PairsStep | backend/cmd/main/gamestate_binary.go:109-118 | one pass of the pair loop either stops with what was read or adds the next pair |
| GoGameStateBinary.HintsStep | backend/cmd/main/gamestate_binary.go:127-151 | one pass of the hint loop either stops with what was read or adds the next hint |
| GoGameStateBinary.GoGetSectionCount | backend/cmd/main/gamestate_binary.go:105-107 | the count read follows the section-count rule |
| GoGameStateBinary.GoStorePair | backend/cmd/main/gamestate_binary.go:110-117 | one pass stores the next pair in slot n and touches no later slot, or stops with the slots read so far |
| GoGameStateBinary.GoFillSafeCells | backend/cmd/main/gamestate_binary.go:109-118 | the array holds the pairs the loop can read, in order, and the slots it never reached keep their zero value |
| GoGameStateBinary.GoGetSafeCells | backend/cmd/main/gamestate_binary.go:104-120 | the safe-cell section follows its rule |
| GoGameStateBinary.GoStoreHint | backend/cmd/main/gamestate_binary.go:128-150 | one pass stores the next hint in slot n and touches no later slot, or stops with the slots read so far |
| GoGameStateBinary.GoFillHints | backend/cmd/main/gamestate_binary.go:127-151 | the array holds the hints the loop can read, in order, and the unreached slots keep their zero value |
| GoGameStateBinary.GoGetHints | backend/cmd/main/gamestate_binary.go:122-153 | the hint section follows its rule |
| GoGameStateBinary.GoDecodeGameStateBinary | backend/cmd/main/gamestate_binary.go:11-156 | the step-by-step server decoder equals the as-written decoding rule, with the division by zero as a failure |
| GoGameStateBinary.GoCountsAgree | backend/cmd/main/gamestate_binary.go:16-35 | wherever the browser reads the counts, the server reads the same ones |
| GoGameStateBinary.GoLoserAgrees | backend/cmd/main/gamestate_binary.go:37-51 | wherever the browser reads the loser section, the server reads the same one |
| GoGameStateBinary.GoHeaderAgrees | backend/cmd/main/gamestate_binary.go:16-51 | wherever the browser reads a header, the server reads the same one from the same bytes |
| GoGameStateBinary.GoRowsAgree | backend/cmd/main/gamestate_binary.go:53-69 | wherever the browser reads a board, the server reads the same cells and stops at the same byte |
| GoGameStateBinary.GoBoardAgrees | backend/cmd/main/gamestate_binary.go:17-69 | header and board layouts match the browser decoder byte for byte wherever the browser does not throw |
| GoGameStateBinary.GoFlagEntryAgrees | backend/cmd/main/gamestate_binary.go:76-99 | a colour entry the browser reads is the entry the server reads; they differ only on a colour cut short, which neither applies |
| GoGameStateBinary.GoFlagColorsAgree | backend/cmd/main/gamestate_binary.go:72-102 | with at least one column the loop as written never panics and equals the guarded loop |
| GoGameStateBinary.GoDecodeAgrees | backend/cmd/main/gamestate_binary.go:11-156 | the decoder as written fails only on a board without columns, and otherwise equals the guarded decoder |
| GoGameStateBinary.ZeroColumnFlagSections | backend/cmd/main/gamestate_binary.go:71-102 | on a zero-column board with one colour entry, the loop as written divides by zero while the guarded loop and the browser skip it |
| GoGameStateBinary.GoDecodeDividesByZero | backend/cmd/main/gamestate_binary.go:93-94 | a concrete 22-byte frame makes the decoder as written divide by zero, while the browser decoder and the guarded decoder decode it |
| GoGameStateBinary.GoFlagColorsOnlyColors | backend/cmd/main/gamestate_binary.go:72-102 | the guarded loop changes only colours, and every colour it sets has 1..7 bytes |
| GoGameStateBinary.GoTrailerOnlyWhileBytesRemain | backend/cmd/main/gamestate_binary.go:72-123 | with no bytes after the board, no colour, safe-cell or hint section is read |
| ProtobufMessages.MapInverse | frontend/src/utils/protobufMessages.ts:205-241 | mapping a list with a conversion and then with its inverse gives the list back |
| ProtobufMessages.OptionalStringRoundTrip | frontend/src/utils/protobufMessages.ts:211-255 | `s || ''` followed by `s || undefined` conflates only the empty string with absence |
| ProtobufMessages.BoardRoundTrip | frontend/src/utils/protobufMessages.ts:205-241 | a board whose flag colours are absent or non-empty survives the trip to the schema and back |
| ProtobufMessages.ClientStateRoundTrip | frontend/src/utils/protobufMessages.ts:204-257 | a client game state survives the trip to the schema and back if and only if its colours and loser fields are absent or non-empty and both lists are present |
| ProtobufMessages.AbsentListsComeBackEmpty | frontend/src/utils/protobufMessages.ts:224-253 | an absent safe-cell or hint list comes back as an empty list |
| ProtobufMessages.BoardFromPbRoundTrip | frontend/src/utils/protobufMessages.ts:205-241 | every schema board survives the trip to the client's form and back |
| ProtobufMessages.SchemaStateRoundTrip | frontend/src/utils/protobufMessages.ts:204-257 | every schema game state survives the trip to the client's form and back |
| ProtobufMessages.CoordinateRoundTrip | frontend/src/utils/protobufMessages.ts:57-58 | a chat coordinate survives encode and decode if and only if it is absent or not negative (decoding at lines 152-153) |
| ProtobufMessages.ChatRoundTrip | frontend/src/utils/protobufMessages.ts:49-59 | a chat whose coordinates are absent or not negative decodes to the chat that was encoded (decoding at lines 142-155) |
| ProtobufMessages.DecodeProtobufMessage | frontend/src/utils/protobufMessages.ts:110-201 | an empty buffer is the "Empty buffer" error, a parse failure is an error, and a message with no field set is null |
| ProtobufMessages.DecodedKindMatches | frontend/src/utils/protobufMessages.ts:137-196 | a decoded message has the kind of the field that was set, and the cursor's pid is its player id |
| ProtobufMessages.DecodeClientMessage | backend/internal/websocket/protobuf.go:173-231 | a non-empty nickname wins; otherwise the first of cursor, click and hint that is set decides the message; the result is an error if and only if parsing failed or no field is set |
| ProtobufMessages.ClientServerAgree | frontend/src/utils/protobufMessages.ts:260-316 | every client request reaches the server as the message of its own kind with its own coordinates and text, and a chat arrives as a non-system message at (-1, -1); an empty nickname, a missing payload or an unknown kind is the server's error |
| GameStates.MinesAroundZero | backend/internal/game/gamestate.go:136-150 | the neighbour count is 0 if and only if none of the eight neighbours in bounds is a mine |
| GameStates.NoMinesAroundMeansNoAdjacentMine | backend/internal/game/gamestate.go:136-150 | a cell counting no mines has no adjacent mine at all, and conversely, which is what lets the flood fill open every neighbour of a 0 (used by the flood at lines 221-222) |
| GameStates.OpenOne | backend/internal/game/gamestate.go:217-220 | opening a closed, unflagged cell without a mine moves exactly that cell from the closed set to the opened set |
| GameStates.WinMeansEverySafeCellOpened | backend/internal/game/gamestate.go:231-236 | while no mine is open, the counter counts the open cells and the board holds `mines` mines, the counter test holds if and only if every cell without a mine is open |
| GameStates.RecountedConsistent | backend/internal/game/gamestate.go:125-133 | recounting keeps mines, opened cells, flags and flag colours, and afterwards every cell without a mine shows the number of mines around it |
| GameStates.FirstClickSafe | backend/internal/game/gamestate.go:170-205 | clearing the 3x3 block, adding mines outside it and recounting leaves no mine in the block, keeps every mine outside it, changes nothing the players see and leaves every number right |
| GameStates.PlaceMines | backend/internal/game/gamestate.go:46-58 | every mine lies on a drawn cell, none is opened or flagged, and exactly `mines` are placed unless the draws run out first, in which case every drawn cell holds a mine |
| GameStates.EnoughDrawsPlaceAll | backend/internal/game/gamestate.go:51-58 | when the draws cover at least `mines` distinct cells, the placement loop places exactly `mines` mines |
| GameStates.NewGameState | backend/internal/game/gamestate.go:11-86 | an empty mode is classic; nothing is open, flagged or counted; a classic board's mines come from the draws and every number is right; the other modes start without mines |
| GameStates.DrawnCell | backend/internal/game/gamestate.go:52-53 | a drawn pair reduced as `rng.Intn(rows)`, `rng.Intn(cols)` would be always lies on the board (and at lines 191-192) |
| GameStates.GameState.constructor | backend/internal/game/gamestate.go:22-41 | a board of the given size with every cell zero, nothing opened or used, no loser and no flag record |
| GameStates.GameState.CountNeighborMines | backend/internal/game/gamestate.go:136-150 | the result is the number of mines among the in-bounds neighbours, the cell itself excluded, and lies in 0..8 |
| GameStates.GameState.IsInRadius | backend/internal/game/gamestate.go:158-167 | the nested scan answers true if and only if the cell lies within `radius` of the centre in both directions |
| GameStates.GameState.ClearBlock | backend/internal/game/gamestate.go:174-184 | every in-bounds mine of the 3x3 block around the click is removed and counted, and nothing else changes |
| GameStates.GameState.RelocateMine | backend/internal/game/gamestate.go:189-200 | the up to 100 draws only add mines, each on a cell outside the block that had none, and nothing else changes |
| GameStates.GameState.RelocateMines | backend/internal/game/gamestate.go:188-201 | only mines are added, each outside the block on a cell that had none |
| GameStates.GameState.EnsureFirstClickSafe | backend/internal/game/gamestate.go:170-205 | afterwards no mine is in the block around the click, every mine outside it stays, what the players see is unchanged, the counter still counts opened cells and every number is right |
| GameStates.GameState.RecountCell | backend/internal/game/gamestate.go:128-130 | the cell at (i, j), if not a mine, now shows its mine count, and the recount has advanced by one cell |
| GameStates.GameState.CalculateNeighborMines | backend/internal/game/gamestate.go:125-133 | the board becomes the recount of the old board |
| GameStates.FloodPathGrows | backend/internal/game/gamestate.go:208-228 | opening more cells keeps a path through opened 0 cells one |
| GameStates.FloodReachedGrows | backend/internal/game/gamestate.go:208-228 | a cell reached through opened 0 cells stays reached when more cells open |
| GameStates.ReachedAfterOpen | backend/internal/game/gamestate.go:216-220 | opening a neighbour of the start reaches it in one step and keeps every earlier cell reached |
| GameStates.FloodPathPrepend | backend/internal/game/gamestate.go:221-223 | a path from an opened 0 next to the start, with that cell in front, is a path from the start |
| GameStates.ReachedAfterFlood | backend/internal/game/gamestate.go:221-223 | the recursive flood from an opened 0 next to the start only opens cells reached from the start |
| GameStates.GameState.RevealNeighbors | backend/internal/game/gamestate.go:208-228 | only closed, unflagged cells without a mine are opened; the counter and the changed set grow by exactly the cells opened; every neighbour of the start and of every opened 0 is afterwards open, flagged, a mine or off the board; and every opened cell is reached from the start one neighbour at a time through opened cells showing 0 |
| GameStates.GameState.VisitNeighbor | backend/internal/game/gamestate.go:214-225 | one iteration of the flood fill keeps its invariant and settles one more neighbour |
| GameStates.GameState.OpenNeighbor | backend/internal/game/gamestate.go:217-220 | the cell is opened, the counter goes up by one, and the cell leaves the closed set |
| GameHints.CellInfos | backend/internal/game/service_hints.go:149-157 | the solver is told, for every cell, exactly whether it is opened and the number it shows |
| GameHints.HintTypeOf | backend/internal/game/service_hints.go:167-176 | a boundary cell gets a hint if and only if it can be safe or can be a mine; both gives UNKNOWN, only a mine MINE, only safe SAFE |
| GameHints.ClassifiedMeans | backend/internal/game/service_hints.go:163-183 | every hint belongs to a boundary cell with a flag raised, every such cell has its hint, and there are no more hints than boundary cells |
| GameHints.ClassifyBoundary | backend/internal/game/service_hints.go:160-183 | the loop's hints are the classification of the whole boundary under the solver's flags |
| GameHints.SafeMeans | backend/internal/game/kaboom.go:532-623 | a raised "can be safe" flag for a cell that is not cached as safe is backed by a placement without a mine there that meets every number |
| GameHints.AllFlagsMean | backend/internal/game/kaboom.go:532-623 | every "can be a mine" flag is backed by a cached mine or by a placement with a mine there meeting every number, and every "can be safe" flag by a placement without one |
| GameHints.ComputeCellHints | backend/internal/game/service_hints.go:145-183 | the boundary is exactly the closed cells next to an opened one; the hints classify it under the solver's flags; each MINE or UNKNOWN hint is backed by a cached mine or a placement meeting every number, and each SAFE or UNKNOWN hint by a placement without that mine |
| GameHints.HintsOf | backend/internal/game/service_hints.go:145-183 | the hints are the classification, in boundary order, of exactly the board's boundary cells under solver flags where every danger flag is backed by a cached mine or a placement with a mine there meeting every opened number, and every safe flag by such a placement without one |
| GameHints.CalculateCellHints | backend/internal/game/service_hints.go:145-187 | the game's hint list becomes such a backed classification of its own board's boundary, and nothing else changes |
| GameHints.AttemptsNeedCells | backend/internal/game/service_hints.go:203-206 | the draw loops only draw when the board has cells, so `rand.Intn` never gets 0 (and at lines 310-313) |
| GameHints.QuickStartGrid | backend/internal/game/service_hints.go:194-232 | no mine lies in the 3x3 block around the click, and at most `mines` mines are placed |
| GameHints.FallbackGrid | backend/internal/game/service_hints.go:297-327 | no mine lies on the click or on an opened cell, and at most `minesToPlace` mines are placed |
| GameHints.CountClosedMines | backend/internal/game/service_hints.go:244-251 | the count is the number of mines on closed cells |
| GameHints.DetermineMinePlacement | backend/internal/game/service_hints.go:190-328 | the first click of a QuickStart game gets a grid with the block around the click clear; otherwise the solver's shape when there is one; otherwise the fallback grid, which avoids the click and the opened cells and places at most the remaining mines, or all of them when none remain |
| LabelMaps.ClosedAround | backend/internal/game/kaboom.go:429-453 | the count of closed in-bounds neighbours among the first `n` is at most `n` |
| LabelMaps.LabelMap.constructor | backend/internal/game/kaboom.go:321-342 | every label and boundary index is -1, nothing is cached, the boundary is empty and the map has the given size |
| LabelMaps.LabelMap.SetLabel | backend/internal/game/kaboom.go:345-351 | a position off the board changes nothing; otherwise the label is stored, the boundary becomes exactly the closed cells next to an opened one, the outside count is recomputed; the cache only gains forced mines, and every closed neighbour of a number equal to its count of closed neighbours ends with a decision (an undecided one becomes a mine) |
| LabelMaps.LabelMap.GetLabel | backend/internal/game/kaboom.go:354-359 | the stored label on the board, -1 off it |
| LabelMaps.LabelMap.SetCache | backend/internal/game/kaboom.go:362-370 | a valid boundary index records the decision at that boundary cell; any other index changes nothing; nothing but the cache changes |
| LabelMaps.LabelMap.GetCache | backend/internal/game/kaboom.go:373-379 | the decision stored at the boundary cell for a valid index, none (Go's nil) otherwise |
| LabelMaps.LabelMap.ResetCache | backend/internal/game/kaboom.go:382-388 | every decision is forgotten and nothing else changes |
| LabelMaps.LabelMap.GetBoundaryIndex | backend/internal/game/kaboom.go:391-396 | the result is -1 or an index whose boundary entry is this cell; every on-board boundary cell gets its index |
| LabelMaps.LabelMap.Recalc | backend/internal/game/kaboom.go:404-466 | labels unchanged; the boundary becomes exactly the closed cells next to an opened one, each recorded at its own index; the outside count is cells minus opened minus boundary; the cache only gains `true` at cells an opened number forces, and every closed neighbour of a number equal to its count of closed neighbours ends with a decision, so an undecided one becomes a mine |
| LabelMaps.RecalcAll | backend/internal/game/kaboom.go:410-463 | the two row/column loops produce a sound, complete boundary, the number of opened cells, and a cache grown only by forced mines in which every closed neighbour of a trivially solved number is decided |
| LabelMaps.BoundaryComplete | backend/internal/game/kaboom.go:420-463 | once every opened cell's closed neighbours have indices, the boundary holds every closed cell next to an opened one |
| LabelMaps.RecalcRow | backend/internal/game/kaboom.go:421-462 | one row of the scan keeps the boundary sound and covers that row's opened cells |
| LabelMaps.RecalcCell | backend/internal/game/kaboom.go:422-461 | one cell of the scan keeps the boundary sound, covers that cell if opened and counts it |
| LabelMaps.ScanCell | backend/internal/game/kaboom.go:426-460 | for an opened cell, every closed neighbour gets a boundary index, existing indices stay; when the number equals its count of closed neighbours and one of them is new to the boundary or uncached, exactly those neighbours are cached as mines, otherwise the cache is unchanged |
| LabelMaps.CacheTrivialMines | backend/internal/game/kaboom.go:456-460 | every boundary cell named by the collected indices becomes a cached mine, and every other cache entry keeps its value |
| LabelMaps.MarkedAreClosedNeighbors | backend/internal/game/kaboom.go:429-460 | the cells the trivial-mine loop marks are exactly the closed neighbours of the number |
| LabelMaps.MarkedNeighborsGrow | backend/internal/game/kaboom.go:455-460 | caching the closed neighbours of a number equal to its count of closed neighbours adds only forced mines |
| LabelMaps.TrivialNeighbor | backend/internal/game/kaboom.go:455-459 | every closed neighbour of such a number is a forced mine |
| LabelMaps.CollectNeighbors | backend/internal/game/kaboom.go:429-453 | the neighbour loops collect the boundary index of every closed neighbour, keep existing indices, and report an uncached neighbour exactly when one was new to the boundary or has no cached decision |
| LabelMaps.CollectStep | backend/internal/game/kaboom.go:430-451 | one neighbour step extends the collected indices by that neighbour's index exactly when it is closed, and raises the uncached flag when that neighbour is new to the boundary or undecided |
| LabelMaps.ScanNeighbor | backend/internal/game/kaboom.go:434-444 | a closed neighbour gets its existing index or is appended with the next one; anything else returns -1 and changes nothing |
| LabelMaps.IndexedAppend | backend/internal/game/kaboom.go:438-442 | appending a cell without an index and recording its index keeps every cell's index consistent with the boundary |
| SafeCells.NeighborIdsBelow | backend/internal/game/kaboom.go:842-855 | every index a neighbour list holds is a boundary index |
| SafeCells.LabelInputsBelow | backend/internal/game/kaboom.go:834-861 | every list MakeSolver feeds the solver holds only boundary indices |
| SafeCells.BoundaryCache | backend/internal/game/kaboom.go:485-512 | the solver's cache has one entry per boundary cell, read from the map's cache |
| SafeCells.RecordedIn | backend/internal/game/kaboom.go:515-529 | the uncached lists AddLabel records keep the bound of the lists it was given |
| SafeCells.InputMet | backend/internal/game/kaboom.go:515-529 | a placement agreeing with the cache that gives the uncached cells the adjusted count gives the whole list its number |
| SafeCells.CountsMeetLabels | backend/internal/game/kaboom.go:515-529 | counts met on the recorded (adjusted) labels are counts met on the numbers the board shows |
| SafeCells.ModelMeetsLabels | backend/internal/game/kaboom.go:532-623 | any model of the clauses Run starts from agrees with the cache and meets every number on the board |
| SafeCells.FlagWitnessed | backend/internal/game/kaboom.go:532-623 | a flag Run raised for an uncached cell is witnessed by a placement that agrees with the cache and meets every number |
| SafeCells.NeighborMineList | backend/internal/game/kaboom.go:841-855 | the list holds the boundary index of each in-bounds neighbour that has one, in neighbour order |
| SafeCells.AddCellLabel | backend/internal/game/kaboom.go:836-859 | an opened cell with boundary neighbours adds exactly its own label and list to what the solver has been fed; any other cell adds nothing |
| SafeCells.AddRowCell | backend/internal/game/kaboom.go:835-860 | one column step feeds the solver that cell's input |
| SafeCells.AddRowLabels | backend/internal/game/kaboom.go:835-860 | one row of the loop feeds the solver the inputs of that row, in column order |
| SafeCells.AddAllLabels | backend/internal/game/kaboom.go:834-861 | the solver is fed the inputs of every opened cell with boundary neighbours, in row-major order |
| SafeCells.MakeSolver | backend/internal/game/kaboom.go:825-865 | the solver covers the map's boundary with `minMines = max(0, maxMines - numOutside)`; it has been fed every number; every flag it raises is backed by a placement meeting every number; its decisions are written back to the map's cache and nothing else in the map changes |
| SafeCells.LabelsBefore | backend/internal/game/kaboom.go:1005-1011 | after the cells before (i, j) are labelled, each of them carries its number if opened and every other cell -1 |
| SafeCells.NoneOpened | backend/internal/game/kaboom.go:1003 | a map with every cell closed has no boundary cell |
| SafeCells.LabelCell | backend/internal/game/kaboom.go:1007-1009 | an opened cell gets its number and the map is recalculated |
| SafeCells.LabelRow | backend/internal/game/kaboom.go:1006-1010 | one row of the SetLabel loop labels that row's opened cells |
| SafeCells.LabelOpened | backend/internal/game/kaboom.go:1003-1011 | the map's labels are the board's opened numbers, its boundary is exactly the closed cells next to an opened one, and its cache holds only mines |
| SafeCells.DangerMeans | backend/internal/game/kaboom.go:532-623 | a "can be a mine" flag means a cached mine or a placement meeting every number with a mine there |
| SafeCells.SafeFilterKeeps | backend/internal/game/kaboom.go:1017-1022 | over distinct boundary cells, the filtered list keeps a cell if and only if its danger flag is down, and holds nothing else |
| SafeCells.CollectSafe | backend/internal/game/kaboom.go:1017-1022 | the result is exactly the boundary cells whose danger flag is down, in boundary order: a boundary cell is returned if and only if the solver never found a mine for it; each appears once |
| SafeCells.IndexedDistinct | backend/internal/game/kaboom.go:438-442 | a boundary that records each cell's index holds each cell once |
| SafeCells.AllDangerMean | backend/internal/game/kaboom.go:1018-1022 | every boundary cell left out of the safe list is a cached mine or can be a mine in a placement meeting every number |
| SafeCells.BoundaryCacheMines | backend/internal/game/kaboom.go:456-460 | the cache a recalculated map hands the solver never says "safe" |
| SafeCells.CalculateSafeCells | backend/internal/game/kaboom.go:1001-1025 | the boundary is exactly the closed cells next to an opened one; the safe cells are the boundary cells whose danger flag is down, in boundary order and each once; every flagged boundary cell is a cached mine or a mine in some placement meeting every number |
| SatSolving.Abs | backend/internal/game/kaboom.go:268-273 | the result is the argument or its negation, and never negative |
| SatSolving.SatisfiesAppend | backend/internal/game/kaboom.go:24-33 | an assignment satisfies two clause lists appended if and only if it satisfies each |
| SatSolving.GenerateSound | backend/internal/game/kaboom.go:289-299 | every emitted combination is `current` followed by `remaining` elements of the rest of the list, in list order |
| SatSolving.GenerateComplete | backend/internal/game/kaboom.go:289-299 | every in-order choice of `remaining` elements of the rest of the list is emitted |
| SatSolving.GenerateAll | backend/internal/game/kaboom.go:289-299 | choosing every remaining element yields exactly one combination, the list itself |
| SatSolving.CombinationsAreGenerated | backend/internal/game/kaboom.go:275-303 | the three shortcuts of `combinations` give what the generator would |
| SatSolving.CombinationsMeaning | backend/internal/game/kaboom.go:275-303 | a sequence is among `combinations(list, n)` if and only if it has `n` elements chosen from `list` in order |
| SatSolving.CombinationsShortcuts | backend/internal/game/kaboom.go:276-284 | `n = 0` gives the empty choice only, a list shorter than `n` gives none, and `n = len(list)` gives the list |
| SatSolving.CombinationsHit | backend/internal/game/kaboom.go:36-68 | every choice of `m` literals contains one evaluating to `pol` if and only if fewer than `m` literals miss `pol` |
| SatSolving.AtLeastMeaning | backend/internal/game/kaboom.go:36-49 | the corrected AssertAtLeast clauses hold if and only if at least `k` of the variables are true |
| SatSolving.AtMostMeaning | backend/internal/game/kaboom.go:52-68 | the corrected AssertAtMost clauses hold if and only if at most `k` of the in-range variables are true |
| SatSolving.AtLeastAsWrittenIsTautology | backend/internal/game/kaboom.go:40-55 | as written, the clause `[1, -1]` meant as a contradiction is met by an assignment with no true variable, so AssertAtLeast([1], 2) and AssertAtMost([1], -1) constrain nothing |
| SatSolving.TautologyHolds | backend/internal/game/kaboom.go:42-54 | `[1, -1]` holds under every assignment that covers variable 1 |
| SatSolving.CounterAtLeastClauses | backend/internal/game/kaboom.go:254-258 | one unit clause per counter output up to `k`, and none when `k` is not positive |
| SatSolving.CounterAtMostPanics | backend/internal/game/kaboom.go:261-265 | as written, the bound `maxMines - numCachedTrue - 1` that OutsideIsSafe passes is -1 when maxMines is 0, and the loop then indexes `counter[-1]` and panics, for an empty counter too; the corrected constraint has no model (the call at lines 674-679) |
| SatSolving.CounterAtMostAgrees | backend/internal/game/kaboom.go:261-265 | for a bound that is not negative, the loop as written and the corrected constraint add the same clauses |
| SatSolving.CounterAtMostNegative | backend/internal/game/kaboom.go:261-265 | the corrected constraint with a negative bound is met by no assignment |
| SatSolving.AddUnitsInRange | backend/internal/game/kaboom.go:24-31 | the unit-clause cache only records variables in 0..numVars |
| SatSolving.Sat.constructor | backend/internal/game/kaboom.go:15-21 | no clauses and an empty unit-clause cache over `numVars` variables |
| SatSolving.Sat.Assert | backend/internal/game/kaboom.go:24-33 | the clause is appended, and a one-literal clause over an in-range variable records its polarity in the cache |
| SatSolving.Sat.AssertAll | backend/internal/game/kaboom.go:46-67 | the clauses are appended in order and the cache updated for each |
| SatSolving.Sat.AssertAtLeast | backend/internal/game/kaboom.go:36-49 | corrected (see ## Findings): the clauses appended are exactly those of "at least `k` of `vars`", an impossible `k` appending a clause nothing meets |
| SatSolving.Sat.AssertAtMost | backend/internal/game/kaboom.go:52-68 | corrected (see ## Findings): the clauses appended are the negations of every choice of `k + 1` variables, a negative `k` appending a clause nothing meets |
| SatSolving.Sat.AssertCounterAtLeast | backend/internal/game/kaboom.go:254-258 | the first `k` counter outputs are asserted true, and nothing else is added |
| SatSolving.Sat.AssertCounterAtMost | backend/internal/game/kaboom.go:261-265 | corrected (see ## Findings): every counter output from index `k` on is asserted false, a negative `k` appending a clause nothing meets |
| SatSolving.Sat.AddCounter | backend/internal/game/kaboom.go:214-251 | a list of at most one variable is returned unchanged; otherwise `len(vars)` fresh variables are allocated for the counter, the existing clauses are kept and only 2- and 3-literal linking clauses are added |
| SatSolving.Sat.CounterRow | backend/internal/game/kaboom.go:231-247 | one row of the linking loops keeps the existing clauses and adds only 2- and 3-literal clauses |
| SatSolving.Sat.Solve | backend/internal/game/kaboom.go:100-112 | with no clauses every variable is false; any model returned has one value per variable and satisfies every clause |
| SatSolving.Sat.Dpll | backend/internal/game/kaboom.go:114-211 | any model returned satisfies every clause, and variables assigned on entry stay assigned |
| SatSolving.Sat.PropagateCached | backend/internal/game/kaboom.go:116-121 | cached units only assign variables that were unassigned |
| SatSolving.Sat.PropagateUnits | backend/internal/game/kaboom.go:124-144 | the repeated passes only assign variables that were unassigned |
| SatSolving.Sat.UnitPass | backend/internal/game/kaboom.go:125-140 | a pass that finds a unit assigns one more variable; one that finds none changes nothing |
| SatSolving.Sat.CheckClauses | backend/internal/game/kaboom.go:147-180 | "all satisfied" means the assignment satisfies every clause; "conflict" means some clause has every in-range literal assigned false |
| SatSolving.Sat.FirstUnused | backend/internal/game/kaboom.go:183-194 | 0 means every variable is assigned; otherwise the result is an unassigned variable in 1..numVars |
| SatSolving.Sat.Apply | backend/internal/game/kaboom.go:81-83 | the extra constraint's clauses are appended to the clause list |
| SatSolving.Sat.SolveWith | backend/internal/game/kaboom.go:72-97 | the clause list and the unit cache are restored, and any model returned satisfies the clauses together with the extra constraint |
| SatSolving.SolutionMeetsBase | backend/internal/game/kaboom.go:86-96 | a model of the clauses plus the extra constraint is a model of each part |
| Solvers.Shift | backend/internal/game/kaboom.go:536-563 | boundary index `m` becomes SAT variable `m + 1`, element by element |
| Solvers.CachedTrueAmong | backend/internal/game/kaboom.go:519-525 | the number of cached mines in a list is at most its length |
| Solvers.UncachedAmong | backend/internal/game/kaboom.go:516-525 | the uncached list is no longer than the list and holds only entries of it that the cache leaves open |
| Solvers.UncachedIndices | backend/internal/game/kaboom.go:501-509 | exactly the boundary indices the cache leaves open |
| Solvers.CachedTrueCount | backend/internal/game/kaboom.go:501-509 | the number of cached mines is at most the number of boundary cells |
| Solvers.TrueCountCons | backend/internal/game/kaboom.go:519-525 | one more literal adds one to the count exactly when it holds |
| Solvers.AdjustedCount | backend/internal/game/kaboom.go:515-529 | under any assignment, the mines among a label's cells are the cached mines plus the mines among its uncached cells, so the adjusted label keeps the label's meaning |
| Solvers.ExactlyMeaning | backend/internal/game/kaboom.go:541-544 | AssertAtLeast and AssertAtMost with the same `k` hold together if and only if exactly `k` of the variables are true |
| Solvers.LabelsMetSplit | backend/internal/game/kaboom.go:534-545 | meeting every label is meeting all but the last and the last |
| Solvers.LabelClausesMeaning | backend/internal/game/kaboom.go:534-545 | the clauses of Run's first loop hold if and only if every label with uncached cells sees exactly that many mines among them |
| Solvers.LastLabelMeaning | backend/internal/game/kaboom.go:535-544 | one label's clauses hold if and only if, when it has cells, exactly that many of them are mines |
| Solvers.CacheClausesMeaning | backend/internal/game/kaboom.go:548-556 | the cache's unit clauses hold if and only if the assignment agrees with every cached decision |
| Solvers.ModelMeetsConstraints | backend/internal/game/kaboom.go:532-575 | a model of clauses that begin with the label and cache clauses agrees with the cache and meets every label |
| Solvers.ForcedByCache | backend/internal/game/kaboom.go:548-556 | a model of any clause list containing the cache clauses agrees with the cache |
| Solvers.Marked | backend/internal/game/kaboom.go:625-635 | `update` keeps one flag per boundary cell |
| Solvers.UpdateKeepsSound | backend/internal/game/kaboom.go:625-635 | marking the values a model gives the cells keeps every flag backed by a model |
| Solvers.SettleUncached | backend/internal/game/kaboom.go:590-610 | an uncached cell whose flags are backed by models counts as settled |
| Solvers.CacheSoundGrows | backend/internal/game/kaboom.go:590-621 | raising flags keeps every cache decision supported by the flags |
| Solvers.SettleCached | backend/internal/game/kaboom.go:579-588 | a cached cell gets exactly the flags of its cached value and is settled |
| Solvers.ClearKeepsSound | backend/internal/game/kaboom.go:597-610 | lowering a flag of an uncached cell keeps the flags sound |
| Solvers.MarkedAbsorbs | backend/internal/game/kaboom.go:594-607 | setting the probed flag before `update` changes nothing, since `update` raises it anyway |
| Solvers.UnflaggedSound | backend/internal/game/kaboom.go:495-496 | before the first probe no flag is raised, which is sound |
| Solvers.ShiftVars | backend/internal/game/kaboom.go:536-563 | the loop builds the shifted variable list |
| Solvers.AdjustLabel | backend/internal/game/kaboom.go:516-525 | the loop yields the label less the cached mines among its cells, and its uncached cells in order |
| Solvers.CachedTrueAppend | backend/internal/game/kaboom.go:519-525 | counting cached mines distributes over concatenation |
| Solvers.UncachedAppend | backend/internal/game/kaboom.go:519-525 | collecting uncached cells distributes over concatenation |
| Solvers.UpdateFlags | backend/internal/game/kaboom.go:625-635 | every boundary cell the model covers gets the flag of the value the model gives it |
| Solvers.ReadCache | backend/internal/game/kaboom.go:500-509 | the solver's cache holds the map's decision for each boundary index, with the uncached indices and the count of cached mines |
| Solvers.AssertLabel | backend/internal/game/kaboom.go:535-544 | a label with cells appends "at least k" and "at most k" over its shifted cells; a label without cells appends nothing |
| Solvers.AssertLabels | backend/internal/game/kaboom.go:534-545 | the loop appends the clauses of every label in order |
| Solvers.AssertCache | backend/internal/game/kaboom.go:548-556 | the loop appends one unit clause per cached decision, positive for a mine and negative for a safe cell |
| Solvers.IndexedInjective | backend/internal/game/kaboom.go:438-442 | a cell whose recorded index is `i` is boundary cell `i` |
| Solvers.WriteBackStep | backend/internal/game/kaboom.go:613-621 | deciding cell `i` and writing it to the map with SetCache keeps the map's cache in step with the solver's |
| Solvers.CacheSoundDecide | backend/internal/game/kaboom.go:613-621 | caching the one value the flags support for an uncached cell settles it soundly |
| Solvers.ProbeModel | backend/internal/game/kaboom.go:591-604 | a model of the clauses plus the probe's unit clause gives the probed cell the probed value and satisfies the clauses |
| Solvers.Solver.constructor | backend/internal/game/kaboom.go:485-512 | one SAT variable per boundary cell, no clauses or labels, the map's cache copied with its uncached indices and cached-mine count, and no flag raised |
| Solvers.Solver.AddLabel | backend/internal/game/kaboom.go:515-529 | the label less the cached mines among its cells, and the uncached cells, are appended; nothing else changes |
| Solvers.Solver.Run | backend/internal/game/kaboom.go:532-623 | the clauses begin with the label and cache clauses; every "can be safe" or "can be a mine" flag of an uncached cell is backed by a model of the clauses; a cached cell carries exactly its cached value; a new cache entry is the one value the flags allow, and is written back to the map, whose other fields are untouched |
| Solvers.Solver.AddConstraints | backend/internal/game/kaboom.go:534-575 | the clause list becomes the old one plus the label clauses, the cache clauses and the counter clauses, in that order |
| Solvers.Solver.AssertCounter | backend/internal/game/kaboom.go:558-575 | the counter part only appends clauses |
| Solvers.Solver.ProbeAll | backend/internal/game/kaboom.go:578-622 | after the loop every cell is settled with sound flags, the clause list is as before, and the decisions are written back to the map |
| Solvers.Solver.Probe | backend/internal/game/kaboom.go:579-621 | one more boundary cell is settled, with sound flags and a sound cache entry |
| Solvers.Solver.ProbeValue | backend/internal/game/kaboom.go:590-610 | the answer is the probed cell's flag for that value, the clause list is restored, and every flag stays backed by a model |
| Solvers.Solver.Decide | backend/internal/game/kaboom.go:612-621 | a cell with only one value found is cached with it, here and in the map; otherwise nothing changes |
| Solvers.Solver.HasSafeCells | backend/internal/game/kaboom.go:654-661 | true if and only if some boundary cell cannot be a mine |
| Solvers.Solver.HasNonDeadlyCells | backend/internal/game/kaboom.go:664-671 | true if and only if some boundary cell can be safe |
| Solvers.Solver.OutsideIsSafe | backend/internal/game/kaboom.go:674-679 | corrected (see ## Findings) in the constraint it asks for: the clauses are restored, a true answer needs at least maxMines boundary cells, and a false answer after asking comes with a model of the clauses plus "fewer than the remaining mines on the counter" |
| Solvers.Solver.OutsideCanBeSafe | backend/internal/game/kaboom.go:682-689 | a negative minMines answers true; otherwise true means a model exists with more than the minimum mines on the counter; the clauses are restored |
| GameService.SoundAfterOpening | backend/internal/game/service.go:201-215 | opening cells keeps the game sound (every number right, the counter equal to the opened cells, no opened mine unless the game is over, at most three hints) |
| GameService.OpenedIsOnlyOpening | backend/internal/game/service.go:582-602 | a flood only opens closed cells, and never a mine |
| GameService.OnlyOpeningKeeps | backend/internal/game/service.go:201-215 | opening cells keeps the mines and the flags, so every number stays right, and no opened cell closes |
| GameService.OnlyOpeningTransitive | backend/internal/game/service.go:292-322 | two rounds of opening are one |
| GameService.NothingOpened | backend/internal/game/service.go:176-190 | with no opened cell, no cell is open and no mine is opened |
| GameService.OpenCell | backend/internal/game/service.go:203-204 | the cell alone is opened, it joins the opened cells and the counter follows |
| GameService.OpenAny | backend/internal/game/service.go:203-204 | opening a closed cell adds it, and it alone, to the opened cells |
| GameService.PlacedBefore | backend/internal/game/service.go:347-368 | after the cells before (i, j), each closed one holds the grid's mine and every other cell is as it was |
| GameService.ZoneStep | backend/internal/game/service.go:352-365 | a cell whose mine flips adds itself and its in-grid neighbours to the changed cells, and no other cell adds any |
| GameService.MinesAroundSameNeighbours | backend/internal/game/service.go:371-390 | the mines counted around a cell depend only on its neighbours' mines |
| GameService.ReplacedKeeps | backend/internal/game/service.go:340-393 | dynamic placement keeps what players see, keeps every number right, and gives each closed cell the grid's mine and each opened cell its own |
| GameService.PlaceCell | backend/internal/game/service.go:349-366 | one more cell placed and, if it flipped, it and its neighbours marked changed |
| GameService.MarkAround | backend/internal/game/service.go:353-364 | the changed set grows by the cell and its in-grid neighbours |
| GameService.RecountChanged | backend/internal/game/service.go:372-389 | one changed cell that is not a mine gets the count of mines around it; no other cell changes |
| GameService.PlaceAll | backend/internal/game/service.go:346-368 | every closed cell holds the grid's mine, and the changed cells are those that flipped with their neighbours |
| GameService.PlaceRow | backend/internal/game/service.go:348-367 | one more row placed |
| GameService.RecountZone | backend/internal/game/service.go:371-390 | whatever the order of the changed cells, each that is not a mine shows the mines around it and no other cell changes |
| GameService.HandleDynamicMinePlacement | backend/internal/game/service.go:340-393 | the board becomes the grid's mines on the closed cells with the changed cells recounted; the returned cells are the flipped cells and their neighbours, all on the board |
| GameService.ToggleFlag | backend/internal/game/service.go:85-115 | an opened cell is left alone; a flag stays while another player set it less than a second ago, and is otherwise removed with its owner and colour; a clean closed cell gets the player's flag, colour and owner entry; only that cell's flag and colour, and only that key, change |
| GameService.ToggleTwiceRestores | backend/internal/game/service.go:85-115 | flagging a clean closed cell and toggling it again restores the cell and the owners |
| GameService.FlagKeepsSound | backend/internal/game/service.go:105-115 | changing a cell's flag keeps the game sound |
| GameService.ToggleFlagStep | backend/internal/game/service.go:86-115 | the branches compute ToggleFlag |
| GameService.HandleFlagToggle | backend/internal/game/service.go:85-115 | the clicked cell and the flag owners become ToggleFlag's, under key row*cols+col, and the game stays sound |
| GameService.SetFlag | backend/internal/game/service.go:105-115 | writing a cell that differs only in its flag keeps the game sound |
| GameService.LoserNicknameOf | backend/internal/game/service.go:496-513 | the connection's nickname when the connection manager knows the player, otherwise the room player's, otherwise none |
| GameService.SetLoserInfo | backend/internal/game/service.go:515-518 | the loser is recorded only when a nickname was found; otherwise the loser fields stay |
| GameService.RecomputeHints | backend/internal/game/service.go:419-425 | computing hints keeps the game sound |
| GameService.HandleMineExplosion | backend/internal/game/service.go:396-425 | the game is over and sound, the loser recorded when a nickname exists, and hints change only in the fair mode |
| GameService.HandleHint | backend/internal/game/service_hints.go:10-107 | a finished game or three used hints change nothing; a position off the board is "invalid coordinates"; an opened or flagged cell is left alone; a mine gets the player's flag, one hint is counted and only that cell is changed; any other cell is opened, flooded from on 0, one hint counted, the win checked, and the opened cells returned |
| GameService.RevealHinted | backend/internal/game/service_hints.go:91-107 | the cell is opened and flooded from on 0, only closed safe cells are opened, one hint is counted, the win is checked and the opened cells are returned |
| GameService.OpenedClicked | backend/internal/game/service.go:203-215 | opening a closed unflagged safe cell adds only it, and only a 0 leaves neighbours to open |
| GameService.FloodedClicked | backend/internal/game/service.go:212-215 | the flood from the clicked 0 settles every neighbour, and the changed cells are exactly the opened ones |
| GameService.OpenAndFlood | backend/internal/game/service.go:203-215 | the cell is opened and counted; on 0 every neighbour is settled; only closed safe cells open; the new cells are added to the changed set |
| GameService.FlagsAround | backend/internal/game/service.go:270-283 | the flag count is at most the number of neighbours looked at |
| GameService.CountFlagsAround | backend/internal/game/service.go:270-283 | the loop counts the flags among the cell's in-grid neighbours |
| GameService.ChordingAfter | backend/internal/game/service.go:292-322 | opening more safe cells keeps the chord's progress and adds them to the changed set |
| GameService.ChordNeighbor | backend/internal/game/service.go:297-320 | a closed unflagged neighbour is opened; a mine ends the chord with that mine open and the earlier neighbours still settled, otherwise the neighbour is settled |
| GameService.ChordSettledStays | backend/internal/game/service.go:297-320 | opening cells keeps an opened, flagged or off-board neighbour so |
| GameService.ChordOpenMine | backend/internal/game/service.go:300-305 | the chord opens the unflagged mine and records it as changed; the call itself only opens cells |
| GameService.ChordFlood | backend/internal/game/service.go:300-318 | a safe neighbour is opened, flooded from on 0, and settled |
| GameService.HandleChording | backend/internal/game/service.go:269-337 | unless the flags around equal the number nothing changes; otherwise only closed cells open, and either every neighbour is settled and the win checked, or a neighbouring mine is open with every neighbour visited before it opened or flagged, the game is over and not won, and the loser recorded when a nickname exists |
| GameService.Chord | backend/internal/game/service.go:291-329 | the opening loop leaves the game sound and either settles every neighbour or ends on an opened mine, the neighbours before it settled |
| GameService.ChordExplosion | backend/internal/game/service.go:305-307 | a chord that opened a mine ends the game soundly, recording the loser when a nickname exists |
| GameService.UnseenKeepsSound | backend/internal/game/service.go:184-200 | moving mines under closed cells and recounting keeps a running game sound |
| GameService.ClearBlockShowsZero | backend/internal/game/service.go:184-190 | with no mine in the block around it and every number right, the clicked cell is no mine and shows 0 |
| GameService.StartClock | backend/internal/game/service.go:176-181 | the first opening sets the start time unless one is already set |
| GameService.QuickStartPrep | backend/internal/game/service.go:184-190 | the classic quick start clears the block around the click without changing what players see |
| GameService.DynamicPrep | backend/internal/game/service.go:194-196 | the training and fair modes place their mines without changing what players see, and report changed cells on the board |
| GameService.PrepareMines | backend/internal/game/service.go:183-200 | a classic quick first click clears the block around the click; other classic clicks leave the board and report only the click; every mode keeps what players see |
| GameService.RevealClicked | backend/internal/game/service.go:202-249 | the clicked cell is opened; a mine ends the game with only it opened; any other cell is flooded from on 0 and the win checked; the loser is recorded only on a loss with a nickname, and hints change only on a fair-mode loss |
| GameService.ExplodeClicked | backend/internal/game/service.go:203-210 | the mine alone is opened and counted, the game is over and the loser recorded when a nickname exists |
| GameService.OpenMine | backend/internal/game/service.go:203-204 | opening the clicked mine leaves a game that is over and sound |
| GameService.ExplodedIsClicked | backend/internal/game/service.go:203-210 | opening the clicked mine alone and ending the game is a click's outcome |
| GameService.FloodClicked | backend/internal/game/service.go:203-249 | the safe clicked cell is opened, flooded from on 0, and the win checked |
| GameService.RevealComposed | backend/internal/game/service.go:183-249 | preparing the mines and then opening the click gives the reveal's outcome; after a quick start the cell is a 0 and the game goes on; an unchanged board keeps its mines |
| GameService.RevealClosed | backend/internal/game/service.go:183-249 | on a closed unflagged cell: flags and opened cells kept, the cell opened, the game lost exactly when it is a mine, otherwise a 0 floods and the win is checked; a quick start gives a 0 and no loss; a classic game without one keeps its mines and reports exactly the opened cells |
| GameService.HandleCellReveal | backend/internal/game/service.go:157-266 | a flagged cell, or an opened one that is not chorded, changes nothing; an opened number in a chording room is chorded; a closed cell starts the clock on the first opening and is revealed as RevealClosed states |
| GameService.PlayerColor | backend/internal/game/service.go:67-75 | the room player's colour, or none |
| GameService.ClickOnBoard | backend/internal/game/service.go:77-81 | a flag click toggles the flag in the player's colour and leaves the clock; a reveal click leaves the flag owners and has the outcome of a reveal: nothing on a flag or an unchorded opened cell, a chord on a matching opened number, the reveal of a closed cell |
| GameService.FlagClick | backend/internal/game/service.go:77-79 | the cell and flag owners become ToggleFlag's |
| GameService.RevealClick | backend/internal/game/service.go:80-81 | a flagged cell, or an opened cell that is not chorded, leaves the game unchanged; an opened number in a room with chording is left alone unless the flags around it match, and is then chorded; a closed cell is revealed |
| GameService.HandleCellClick | backend/internal/game/service.go:47-82 | a click on a finished game does nothing; a position off the board is "invalid coordinates"; otherwise a flag click toggles the flag in the player's colour, and a reveal click does nothing on a flag or an unchorded opened cell, chords a matching opened number and reveals a closed cell, the game staying sound |

## Left out

- Sockets, HTTP handlers, the database, persistence, broadcasting and chat messages. These are I/O. The service methods return the set of changed cells that the server would broadcast.
- Mutexes and goroutines. The moves are modelled as sequential. The training-mode hint recomputation that runs asynchronously after a flag, a reveal or a hint is not modelled. The lock juggling of `service.go` is not modelled either: `HandleCellClick` defers an unlock, and the handlers unlock again.
- Game results and wins: `recordGameResult`, `handleGameWin` and `SaveRoom`. These are persistence and timing.
- The schema library's own encoding (`proto.Marshal`, protobufjs) and the asynchronous schema loading. The model starts from decoded message records, or ends at them.
- UTF-8: strings on the wire are byte sequences. Floating point: cursor coordinates are reals: rounding to hundredths is modelled exactly, floating-point error is not. Go's fixed-width integers are unbounded, except where the wire format truncates, which is written out.
- Randomness. `mineGridWithCell`'s shuffle, `GenerateSolvableBoard` and `CheckSolvability` are left out. The solver-driven shape search of `DetermineMinePlacement` is also left out: `AnySafeShape`, `AnyDangerousShape`, `AnyShapeWithOneEmpty`, `AnyShapeWithRemaining`, `AnyShape`, `shape`, `NewMineShape` and `MineGrid`. Its result is the `shape` parameter of `GameHints.DetermineMinePlacement`. The model proves what is done with any such grid.
- The game seed: only whether one is set (`customSeed`) is modelled, as the quick-start guard uses it. `NewGameState` has one parameter more in `gamestate.go` than the call in `room.go` passes. The model follows `gamestate.go`.
- GameStates.PlaceMines: the draws are a finite sequence, so the loop also stops when they run out. With more mines than cells, the Go loop never ends.
- GameStates.GameState.EnsureFirstClickSafe: does not state the final mine count. A mine whose 100 relocation attempts all fail is dropped, as in the source.
- Solvers.Solver.Run: only soundness is proved. Every flag the probes raise is backed by a model of the clauses. That the DPLL search finds a model whenever one exists is not proved, so "cannot be a mine" is not proved to mean "no model puts a mine there".
- SatSolving.Sat.AssertAtLeast, SatSolving.Sat.AssertAtMost and SatSolving.Sat.AssertCounterAtMost: these model the corrected constraints of "## Findings", not the source as written. An impossible bound appends the empty clause rather than the always-true `[1, -1]`, and a negative counter bound appends the empty clause rather than panicking. The as-written behaviour is stated by the members named in the Findings table.
- Solvers.Solver.OutsideIsSafe: every query of the Solver class (the probes of Run, OutsideIsSafe and OutsideCanBeSafe) uses the corrected constraints. When the bound `maxMines - numCachedTrue - 1` is negative, the model's OutsideIsSafe query has no model and the answer is true; the source panics there.
- GameHints.ComputeCellHints, GameHints.HintsOf and GameHints.CalculateCellHints: every hint given is backed by the cache or by a placement meeting every number. That a flag is raised wherever such a placement exists is not stated, because it rests on the completeness of the solver's search (see Solvers.Solver.Run). So the contract does not rule out a shorter hint list than the source's.
- SafeCells.CalculateSafeCells: likewise, a cell is returned exactly when its danger flag is down. That the flag is down only when no placement puts a mine there is the solver's completeness, which is not proved.
- LabelMaps.LabelMap.Recalc, LabelMaps.RecalcAll and LabelMaps.LabelMap.SetLabel: the final cache is stated as growing only by forced mines, with every closed neighbour of a trivially solved number decided. Exactly which entries are overwritten depends on the scan order. ScanCell states it for each opened cell. For example, a neighbour that an earlier solver run cached as safe is overwritten only if the cell is scanned while another neighbour is still new to the boundary or undecided.
- `Solver.CanBeSafe` and `Solver.CanBeDangerous` are plain reads of the flag arrays, and `LabelMap.GetBoundary` is the `boundary` field. These have no members of their own.
- CellUpdates.CellTypeIsMember: assumes the neighbour count is not negative. Boards built by the game never hold a negative count.
- GameService.RecomputeHints: states only that the game stays sound. What the hints are is the contract of `GameHints.CalculateCellHints`.
- GameService.HandleMineExplosion: states only that the hints change in the fair mode. It does not restate what they become.
- The Go service's `revealNeighbors` (`service.go`) has the same body as `GameState.RevealNeighbors`, and one member models both. `getCellType` in `backend/cmd/main` is the same as the one in the `game` package, and likewise has one member.
- `NewGameState` counts the mines around each cell in a loop of its own. It yields the same numbers as `calculateNeighborMines`, and the model uses one recount for both.

## Findings

| source | as written | input that shows it | evidently intended | confidence | as-written member | corrected member |
|---|---|---|---|---|---|---|
| backend/cmd/main/gamestate_binary.go:93-94 | the cell key of a flag-colour entry is divided by `gs.Cols` with no check for zero | a frame with 0 columns, followed by one flag-colour entry of length 1..7 | skip the entry, as the browser decoder's bounds check does | not executed | GoGameStateBinary.GoDecodeDividesByZero | GoGameStateBinary.GoFlagColors |
| backend/internal/game/kaboom.go:40-55 | an impossible bound asserts the clause `[1, -1]` as a contradiction, and that clause is always true | `AssertAtLeast([1], 2)` or `AssertAtMost([1], -1)`: the assignment with no true variable still satisfies every clause | an unsatisfiable constraint (the empty clause) | not executed | SatSolving.AtLeastAsWrittenIsTautology | SatSolving.AtLeastMeaning |
| backend/internal/game/kaboom.go:261-265 | `AssertCounterAtMost` starts its loop at `k` without checking `k >= 0` | `OutsideIsSafe` (lines 674-679) with `maxMines = 0` and no cached mine passes `k = -1`, and the loop reads `counter[-1]` and panics | no assignment satisfies "at most -1" | not executed | SatSolving.CounterAtMostPanics | SatSolving.CounterAtMostNegative |
