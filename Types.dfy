/**
 * Values exchanged by the race-room coordinator: player slots, rooms, and the
 * outbound events with their addressing.
 */
module RaceTypes {

  datatype Option<+T> = None | Some(value: T)

  /** Transport-assigned connection identifier (`socket.id`). */
  type ConnId = string
  /** Room code produced by the code generator. */
  type Code = string
  /** Requested passage-length category, carried without interpretation. */
  type QuoteLength = string
  /** The client's finishing summary, stored and relayed without interpretation. */
  type Payload = string

  /**
   * One participant's position within a room. `result` is absent until the
   * participant submits; `playAgain` and `disconnected` stand for the optional
   * boolean fields, `false` meaning "not set".
   */
  datatype Slot = Slot(
    id: ConnId,
    wordIndex: int,
    charIndex: int,
    result: Option<Payload>,
    playAgain: bool,
    disconnected: bool)

  /** `player1` always exists; `player2` only after a join. */
  datatype Players = Players(player1: Slot, player2: Option<Slot>)

  datatype Room = Room(players: Players, quoteLength: QuoteLength, testText: Option<string>)

  datatype PlayerTag = Player1 | Player2

  datatype Event =
    | HasJoinedRoom(code: Code)
    | JoinRoomError
    | RoomState(room: Room)
    | TestText(quote: string)
    /** Marker for the countdown the server starts once the passage is stored. */
    | CountdownStarted
    | CaretPositionChange(player: PlayerTag, wordIndex: int, charIndex: int)
    | PlayersState(players: Players)
    | OpponentPlayAgain
    | OpponentDisconnected

  /** The three addressing modes of the broadcast relay. */
  datatype Target =
    | ToRoom(code: Code)
    | ToRoomExceptSender(code: Code, sender: ConnId)
    | ToConnection(conn: ConnId)

  datatype Message = Message(to: Target, event: Event)

  /** A passage fetch that has been issued and not yet settled. */
  datatype QuoteRequest = QuoteRequest(code: Code, quoteLength: QuoteLength)

  /** A slot as a participant enters a race: position (0, 0), no flags. */
  function StartSlot(id: ConnId): Slot {
    Slot(id, 0, 0, None, false, false)
  }

  /**
   * Every handler takes the sender to be `player1` when the ids match, else
   * `player2`; the chosen slot holds the sender whenever either slot does.
   */
  function SenderTag(p: Players, sender: ConnId): (t: PlayerTag)
    ensures t == Player1 <==> p.player1.id == sender
    ensures (SlotOf(p, t).Some? && SlotOf(p, t).value.id == sender)
        <==> (p.player1.id == sender || (p.player2.Some? && p.player2.value.id == sender))
  {
    if p.player1.id == sender then Player1 else Player2
  }

  function Opponent(t: PlayerTag): (o: PlayerTag)
    ensures o != t
  {
    if t == Player1 then Player2 else Player1
  }

  function SlotOf(p: Players, t: PlayerTag): Option<Slot> {
    if t == Player1 then Some(p.player1) else p.player2
  }

  /** `players[t] = slot`: the other slot is left as it was. */
  function WithSlot(p: Players, t: PlayerTag, slot: Slot): (r: Players)
    ensures SlotOf(r, t) == Some(slot)
    ensures SlotOf(r, Opponent(t)) == SlotOf(p, Opponent(t))
  {
    if t == Player1 then p.(player1 := slot) else p.(player2 := Some(slot))
  }

  predicate HasResult(s: Option<Slot>) {
    s.Some? && s.value.result.Some?
  }

  predicate WantsRematch(s: Option<Slot>) {
    s.Some? && s.value.playAgain
  }

  predicate IsDisconnected(s: Option<Slot>) {
    s.Some? && s.value.disconnected
  }
}
