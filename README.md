# Race-room coordinator

A Dafny model of the server that runs two-player typing races: the handlers in
`server/src/server.ts` that create a room, let a second connection join, relay
caret positions, collect finishing results, negotiate a rematch, and clean up
when a participant leaves or disconnects.

The server keeps two dictionaries: `clientRooms` (connection id to room code)
and `roomState` (room code to room). Each socket event runs one handler to
completion and changes them in place. The handlers send events to a whole
room, to a room except the sender, or to one connection.

- `Types.dfy` (module `RaceTypes`): player slots, rooms, outbound events and
  their addressing, and slot selection. The sender is `player1` when the ids
  match and `player2` otherwise.
- `Words.dfy` (module `Words`): JavaScript's `split(' ')`. The result handler
  uses it to place the finishing caret. It is proved against its inverse
  `Join` in both directions.
- `Transitions.dfy` (module `Transitions`): a `Registry` value with both
  dictionaries, the passage fetches still in flight, and the event stream sent
  so far. Each handler is a function on it whose contract states exactly which
  keys, slots and events change. Every handler keeps `Inv`: no stored room has
  both slots marked disconnected, and none has both slots waiting for a
  rematch.
- `Server.dfy` (module `RaceServer`): class `Coordinator`. It has the
  dictionaries, the fetches in flight and the outbox as fields, and one method
  per handler. Each method follows the source statement by statement. Each is
  proved to perform its `Transitions` function and to keep `Valid()`.
- `Properties.dfy` (module `RaceProperties`): dispatch of any sequence of
  inbound events, with the invariant and the append-only outbox proved over
  every such run. It also proves result disclosure, that a caret update is
  never echoed to its sender, rematch negotiation, departure, and the
  create/join/race scenarios.

Things the model treats as inputs:

- The room code from `generateCode(6)` is a parameter of `CreateRoom`.
- A passage fetch started by a join or a rematch reset goes into `pending`.
  The quote-provider output is a parameter of the continuation
  `OnQuoteFetched(k, quote)`. That continuation writes `testText`, broadcasts
  the passage, and emits a `CountdownStarted` marker for `startCountdown`.
- A rejected fetch is `OnQuoteFailed(k)`. Nothing handles the rejection, so
  the only effect is removing the fetch from `pending`.

Some handlers throw a TypeError part-way through. This happens when a handler
reads `.id` of an absent slot or assigns `.playAgain` or `.disconnected` on one
(server/src/server.ts:79, 141, 156, 158, 180), when a result arrives before any
passage (`typedWords` is `undefined` at line 109), or when a fetch resolves
after its room was deleted (line 149). TypeScript's `!` only silences the type
checker and does not itself throw. In those cases the model
keeps the changes made before the throw and does nothing after it. The
methods report this in `threw`.

The model follows the code where it departs from the intended design:

- A join does not check that the room still has a free slot. It overwrites
  `player2`. It also sends `HasJoinedRoom` to the joiner.
- A fetch continuation has no generation check. It writes to whatever room is
  stored under the code when it settles.
- The result handler still discloses when the sender has no slot, as long as
  `player1` holds a result.
- The finishing caret's `wordIndex` is the number of pieces minus one, and its
  `charIndex` is the length of the last piece.
- Departure removes only the sender's `clientRooms` entry. The opponent's entry
  stays after the room is deleted.
- A rematch reset sets `testText` to the empty string, not to absent.
- A room can stay stored with no connection mapped to it, so no later event
  reaches it. A connection that creates a second room leaves its first one
  behind (`RecreateOrphansRoom`). A rematch reset clears the disconnected mark
  of a participant who already left, so when the other one leaves too the
  room is kept (`RematchAfterLeaveOrphansRoom`).

## Model

| member | source | states |
|---|---|---|
| RaceTypes.SenderTag | server/src/server.ts:75-76 | the sender is `player1` exactly when `player1`'s id is the sender's; the chosen slot holds the sender whenever either slot does |
| RaceTypes.WithSlot | server/src/server.ts:78-82 | writing one player slot leaves the other slot exactly as it was |
| RaceTypes.Opponent | server/src/server.ts:101 | the opponent is always the other slot |
| Words.Split | server/src/server.ts:106 | `split(' ')` always yields at least one piece |
| Words.SplitLength | server/src/server.ts:106-109 | there is one more piece than there are spaces in the text |
| Words.SplitPiecesHaveNoSpace | server/src/server.ts:106 | no piece contains a space |
| Words.JoinSplit | server/src/server.ts:106 | joining the pieces with single spaces gives the text back |
| Words.SplitJoin | server/src/server.ts:106 | splitting the join of space-free pieces gives those pieces back, so Split is the only such cutting |
| Words.LastWordIsFinalSuffix | server/src/server.ts:110 | the last piece is the longest space-free suffix of the text |
| Transitions.RoomOf | server/src/server.ts:69-73 | a room is found if and only if the sender has a `clientRooms` entry, that code is non-empty and a room is stored under it; the code found is the sender's entry |
| Transitions.OnCreateRoom | server/src/server.ts:25-37 | maps the sender to the code; stores a room whose only player is the sender at (0,0), with the requested length and no passage, overwriting any room under that code; sends HasJoinedRoom to the sender, then RoomState to the room; keeps the invariant |
| Transitions.OnJoinRoom | server/src/server.ts:39-64 | an unknown code changes neither map and sends exactly one JoinRoomError to the requester; otherwise maps the sender to the code, sets `player2` to the sender at (0,0), keeps `player1`, length and passage, issues one fetch for the room's length, and sends HasJoinedRoom to the sender then RoomState to the room |
| Transitions.OnCaretPositionChange | server/src/server.ts:66-88 | no room or no sender slot means no change; otherwise only the sender's slot becomes a bare position with the same id (result and flags dropped), the opponent slot is untouched, and one position update tagged with the sender's slot goes to the room except the sender |
| Transitions.FinishCaret | server/src/server.ts:106-111 | the finishing caret goes to the whole room, tagged with the sender's slot, with wordIndex the number of spaces in the passage and charIndex the length of its last piece |
| Transitions.OnResult | server/src/server.ts:90-119 | no room means no change; the payload is stored on the sender's slot only; if a passage is stored, a finishing caret goes to the room; PlayersState goes to the room exactly when the opponent already holds a result and nothing threw |
| Transitions.OnPlayAgain | server/src/server.ts:121-160 | if the opponent is waiting, the room is replaced by one with both ids at (0,0), no results or flags, the same length and an empty passage; RoomState goes to the room and a new fetch is issued; otherwise only the sender's flag is set and OpponentPlayAgain goes to the opponent's connection alone |
| Transitions.OnLeave | server/src/server.ts:162-186 | no room means no change; otherwise the sender's `clientRooms` entry is removed; a room with no opponent or a disconnected one is deleted silently; otherwise only the sender's slot is marked disconnected and exactly one OpponentDisconnected goes to the opponent's connection |
| Transitions.OnQuoteFetched | server/src/server.ts:55-61 | settles fetch `k`; if the room under its code still exists, only its passage changes and TestText then CountdownStarted go to the room; otherwise nothing else changes |
| Transitions.OnQuoteFailed | server/src/server.ts:54-61 | a rejected fetch is dropped from the pending fetches and changes nothing else |
| RaceServer.Coordinator.constructor | server/src/server.ts:19-20 | the server starts with empty dictionaries, no fetches and no events sent |
| RaceServer.Coordinator.CreateRoom | server/src/server.ts:25-37 | the in-place handler performs OnCreateRoom and keeps the invariant |
| RaceServer.Coordinator.JoinRoom | server/src/server.ts:39-64 | the in-place handler performs OnJoinRoom and keeps the invariant |
| RaceServer.Coordinator.CaretPositionChange | server/src/server.ts:66-88 | the in-place handler performs OnCaretPositionChange, keeps the invariant, and reports exactly when the source throws |
| RaceServer.Coordinator.Result | server/src/server.ts:90-119 | the in-place handler performs OnResult, keeps the invariant, and reports exactly when the source throws |
| RaceServer.Coordinator.PlayAgain | server/src/server.ts:121-160 | the in-place handler performs OnPlayAgain, keeps the invariant, and reports exactly when the source throws |
| RaceServer.Coordinator.HandleRoomDisconnect | server/src/server.ts:162-186 | the in-place handler performs OnLeave, keeps the invariant, and reports exactly when the source throws |
| RaceServer.Coordinator.OnQuoteFetched | server/src/server.ts:147-154 | the in-place continuation performs Transitions.OnQuoteFetched and reports exactly when it throws |
| RaceServer.Coordinator.OnQuoteFailed | server/src/server.ts:147-154 | the in-place rejection performs Transitions.OnQuoteFailed |
| RaceProperties.Apply | server/src/server.ts:185-186 | `LeaveRoom` and `disconnect` both run the departure handler; every dispatched event keeps the sent events as a prefix and keeps the invariant |
| RaceProperties.RunOnlyAppends | server/src/server.ts:22-186 | over any sequence of inbound events, the event stream only grows |
| RaceProperties.RunKeepsInv | server/src/server.ts:121-183 | over any sequence of events, no room has both slots disconnected or both slots waiting for a rematch |
| RaceProperties.ReachableRoomsOk | server/src/server.ts:174-180 | every room reachable from the empty server satisfies the invariant |
| RaceProperties.CaretNeverEchoed | server/src/server.ts:84-86 | a caret update sends at most one event, addressed to the sender's room except the sender |
| RaceProperties.ResultDisclosesIffBothFinished | server/src/server.ts:103-118 | with the sender's slot present and a passage stored, PlayersState is sent if and only if both slots then hold a result |
| RaceProperties.BothResultsDiscloseOnce | server/src/server.ts:90-119 | two participants submitting in turn produce both finishing carets and then exactly one PlayersState carrying both results |
| RaceProperties.LoneResultDoesNotDisclose | server/src/server.ts:114-118 | a submission while the opponent has no result never sends PlayersState |
| RaceProperties.FinishCaretPosition | server/src/server.ts:106-111 | the finishing caret's wordIndex is the number of spaces in the passage, and its charIndex is the length of the final space-free run |
| RaceProperties.RematchResetsIffOpponentWaiting | server/src/server.ts:135-154 | a new fetch is issued if and only if the opponent was waiting and the room has two slots; the reset room carries no results or flags |
| RaceProperties.RematchNegotiation | server/src/server.ts:121-160 | the first request sets a flag and notifies the other connection alone; the second request resets the room to both ids at (0,0) with the same length |
| RaceProperties.DepartureScenario | server/src/server.ts:162-186 | the first of two active participants to leave is marked disconnected and the other is told once; the second to leave deletes the room and nobody is told |
| RaceProperties.LoneCreatorLeaving | server/src/server.ts:174-178 | a creator who leaves before anyone joins deletes the room at once |
| RaceProperties.CreateJoinRaceScenario | server/src/server.ts:25-64 | create "medium" as ABC123, join ABC123, passage arrives: both slots are filled and the exact event sequence ends with the passage and the countdown |
| RaceProperties.JoinUnknownScenario | server/src/server.ts:39-43 | joining a never-created code yields one JoinRoomError and no room |
| RaceProperties.RecreateOrphansRoom | server/src/server.ts:25-32 | a connection creating a second room leaves the first stored with no connection mapped to it |
| RaceProperties.RematchAfterLeaveOrphansRoom | server/src/server.ts:121-182 | rematch request and departure by each participant in turn empties `clientRooms` but keeps the room stored |
| RaceProperties.ListedSenderDoesNotThrow | server/src/server.ts:75-82 | the caret and departure handlers throw only for a sender its room no longer lists |

## Left out

- HTTP and socket.io server setup and `listen` (server/src/server.ts:1-17, 189): transport plumbing. Sends are entries in the outbox, and `socket.join` is implicit room membership. Delivery to the members of a socket.io room is not modelled. So the fact that `LeaveRoom` never calls `socket.leave`, and that the departed connection keeps receiving room broadcasts, is not captured.
- `generateCode`: the code is an input. Its length and alphabet are not modelled, and neither is the collision check it lacks.
- `fetchQuote`: the passage is an input to the continuation. Fetches settle in any order chosen by the caller.
- `startCountdown`: only a `CountdownStarted` marker is modelled. The timed ticks and the final race-started broadcast are not.
- `console.log` and `console.error`: logging only.
- Process-level consequences of a TypeError thrown in a handler or a rejected promise are not modelled. Only the handler's own partial effect is.
- The two `.then` steps of a fetch run back to back as one step. No other event is interleaved between storing the passage and starting the countdown.
- JavaScript object-prototype keys (such as `constructor`) used as codes or connection ids are not modelled. Nor is a falsy result payload. A stored result always counts as present.
- The caret payload is narrowed to two integers that are always present. The source takes whatever JSON the client sends (fractional or negative numbers, NaN, non-numbers) and only stores and relays it. A missing payload makes the destructuring at server/src/server.ts:68 throw before the room guard runs. Neither case is modelled.
- `charIndex` is measured in Dafny characters, not UTF-16 code units.
- The client files (`src/components/RecentResults/index.tsx`, `client/src/components/RaceButtonAndModal/RaceModal.tsx`, `src/context/global-context.tsx`, `src/context/reducer/typing-reducer.ts`) are UI, React context and client-side reducer code. They are not part of this model.
